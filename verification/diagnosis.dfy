/**
 The pure part of the diagnosis form: the four report fields are collected
 in a fixed order, every empty field is replaced by the localised "none"
 placeholder, and the request is refused when the symptoms field ends up as
 that placeholder.
 */
module Diagnosis {

  /** The four free-text fields of the form. */
  datatype Report = Report(context: string, symptoms: string, exam: string, labResults: string)

  /** Position of the symptoms field in the report list. */
  const SymptomsIndex: nat := 1

  /** The report list, in the order the form builds it. */
  function Fields(r: Report): (fields: seq<string>)
    ensures |fields| == 4
    ensures fields[SymptomsIndex] == r.symptoms
  {
    [r.context, r.symptoms, r.exam, r.labResults]
  }

  /**
   Walks the list and replaces each empty entry by the correction at the
   same position; non-empty entries are kept as they are.
   */
  method FillEmptyFields(report: seq<string>, corrections: seq<string>) returns (filled: seq<string>)
    requires |corrections| == |report|
    ensures |filled| == |report|
    ensures forall i :: 0 <= i < |report| && report[i] == "" ==> filled[i] == corrections[i]
    ensures forall i :: 0 <= i < |report| && report[i] != "" ==> filled[i] == report[i]
    ensures (forall i :: 0 <= i < |corrections| ==> corrections[i] != "") ==> forall i :: 0 <= i < |filled| ==> filled[i] != ""
  {
    filled := report;
    for ic := 0 to |filled|
      invariant |filled| == |report|
      invariant forall i :: 0 <= i < ic && report[i] == "" ==> filled[i] == corrections[i]
      invariant forall i :: 0 <= i < |report| && (ic <= i || report[i] != "") ==> filled[i] == report[i]
    {
      if filled[ic] == "" {
        filled := filled[ic := corrections[ic]];
      }
    }
  }

  /**
   Fills the report with the placeholder and decides whether the request
   may be sent. It is blocked exactly when the symptoms were left empty or
   were typed as the placeholder itself.
   */
  method CheckSubmission(r: Report, none: string) returns (filled: seq<string>, blocked: bool)
    ensures |filled| == 4
    ensures forall i :: 0 <= i < 4 ==> filled[i] == (if Fields(r)[i] == "" then none else Fields(r)[i])
    ensures blocked <==> r.symptoms == "" || r.symptoms == none
  {
    filled := FillEmptyFields(Fields(r), [none, none, none, none]);
    blocked := filled[SymptomsIndex] == none;
  }
}
