# Health Tracker calorie estimator, in Dafny

This project models the one piece of computation in the Health Tracker app,
which is the daily-calorie estimator `calculate_calories`. It converts height
from feet to centimetres and picks the male or female coefficients of the
revised Harris-Benedict basal-metabolic-rate equation. The choice uses a
case-insensitive test of `sex`. The estimator then multiplies by an activity
factor from a fixed five-entry table. Any key missing from that table gets
1.2. The project also models the pure part of the diagnosis form: the loop
that replaces empty report fields with the localised "none" placeholder, and
the guard that refuses a request whose symptoms field ends up as that
placeholder.

All quantities are Dafny `real`s, which are exact rationals. So the equations
hold exactly, where the Python floats only approximate them. Age is an `int`,
as the profile form's integer input gives it.

Modules:

- `Text` (text.dfy): lower-casing as the source's `str.lower()` is used, and
  the relation "equal ignoring case".
- `Activity` (activity.dfy): the multiplier table. It is kept as the literal
  `map` the source builds. Beside it is a closed `Level` enumeration that
  gives the table order, each level's factor and the labels the form offers.
- `Calories` (calories.dfy): height conversion, sex selection, the basal
  rate and the daily estimate, with case-insensitivity, default,
  monotonicity and worked-example lemmas.
- `Diagnosis` (diagnosis.dfy): the four-field report, the empty-field
  substitution and the submit guard.

Keys are normalised only by lower-casing. Surrounding whitespace is not
trimmed, so `" male"` selects the female coefficients and `"sedentary "` gets
the default factor. The model does the same.

## Model

| member | source | states |
|---|---|---|
| Text.Lower | app.py:75 | `sex.lower()`: the result has no upper-case letter, equals the input ignoring case, and keeps every character that is not an upper-case letter |
| Text.LowerEqualIff | app.py:75 | comparing two lowered strings is the same as comparing them with letter case ignored, in both directions |
| Text.MatchesLowerCaseLiteral | app.py:75 | a string lowers to a lower-case literal exactly when it equals that literal ignoring case |
| Activity.TableIsClosed | app.py:81-87 | the table holds exactly the five level keys, each key with its level's factor (1.2, 1.375, 1.55, 1.725, 1.9); distinct levels have distinct keys |
| Activity.MultiplierFor | app.py:89 | a level matching a key ignoring case gets that key's factor; one matching no key gets 1.2; every result lies between 1.2 and 1.9 |
| Activity.KeyReachesItsMultiplier | app.py:82-89 | looking up a level's own key returns that level's factor |
| Activity.DefaultIsSedentary | app.py:89 | a level matching no key gets the same factor as "sedentary" |
| Activity.MultiplierStrictlyIncreasing | app.py:82-86 | the factors are positive and strictly increase along the table order |
| Activity.FormLabelsReachTable | app.py:112 | each label the profile form offers ("Lightly Active", ...) matches its key ignoring case and gets its level's factor |
| Calories.HeightCm | app.py:73 | the centimetre height divided by 30.48 gives back the height in feet, and it is positive exactly when the height in feet is |
| Calories.BasalMetabolicRate | app.py:73-78 | when `sex` is "male" ignoring case, the rate is 88.362 + 13.397·weight + 146.27352·height_ft − 5.677·age (4.799 per cm times 30.48); for every other string it is 447.593 + 9.247·weight + 94.42704·height_ft − 4.330·age (3.098 per cm times 30.48) |
| Calories.SexOf | app.py:75-78 | the male coefficients are chosen exactly when `sex` equals "male" ignoring case; every other string, not only "female", gets the female ones |
| Calories.FormSexLabels | app.py:111 | the form's "Male" and "Female" choices select the male and female coefficients |
| Calories.DailyCalories | app.py:89-91 | the estimate has the sign of the basal rate, is zero exactly when the basal rate is zero, and lies between 1.2 and 1.9 times the basal rate; nothing clamps it |
| Calories.ClosedFormInFeet | app.py:73-78 | the estimate in closed form over height in feet, with per-foot coefficients 146.27352 (male) and 94.42704 (female) |
| Calories.AtLevel | app.py:89 | at a level's own key, the estimate is the basal rate times that level's factor |
| Calories.SexIsCaseInsensitive | app.py:75 | two spellings of `sex` that agree ignoring case give the same estimate |
| Calories.MaleSpellings | app.py:75 | "Male", "MALE" and "male" give the same estimate |
| Calories.NonMaleIsFemale | app.py:77-78 | any `sex` other than "male" ignoring case gives the same estimate as "female" |
| Calories.LevelIsCaseInsensitive | app.py:89 | two spellings of the activity level that agree ignoring case give the same estimate |
| Calories.UnknownLevelIsSedentary | app.py:89 | a level matching no table key gives the same estimate as "sedentary" |
| Calories.MoreActiveMoreCalories | app.py:82-89 | with a positive basal rate, a level later in the table gives a strictly larger estimate |
| Calories.HeavierMoreCalories | app.py:76-78 | with the other inputs fixed, a larger weight gives a strictly larger estimate, for either sex and any level |
| Calories.TallerMoreCalories | app.py:76-78 | with the other inputs fixed, a larger height gives a strictly larger estimate |
| Calories.OlderFewerCalories | app.py:76-78 | with the other inputs fixed, a larger age gives a strictly smaller estimate |
| Calories.MaleSedentaryExample | app.py:73-91 | 70 kg, 5.9 ft, 30 years, "male", "sedentary" give a basal rate of exactly 1718.855768 and an estimate of 2062.6269216 |
| Calories.FemaleVeryActiveExample | app.py:73-91 | 60 kg, 5.5 ft, 25 years, "female", "very active" give a basal rate of exactly 1413.51172 and an estimate of 2438.307717 |
| Calories.NegativeEstimateWithinFormBounds | app.py:108-110 | inputs inside the form's bounds (1 kg, 1 ft, 150 years, "Female", "Sedentary") give the negative estimate -117.879552, because nothing validates or clamps |
| Diagnosis.Fields | app.py:373-374 | the report list has four entries, and the symptoms field is at position 1 |
| Diagnosis.FillEmptyFields | app.py:379-381 | the length is kept; exactly the empty entries are replaced by their corrections and the rest are unchanged; with non-empty corrections no empty entry remains |
| Diagnosis.CheckSubmission | app.py:416-420 | after filling with the placeholder, the request is blocked exactly when the symptoms were empty or were typed as the placeholder itself |

## Left out

- Floating point: every quantity is an exact real. The concrete values above
  are exact rationals, and Python's IEEE-754 doubles only approximate them.
- Unicode case mapping: `Text.Lower` folds only the ASCII letters A-Z, so its
  value differs from Python's `str.lower()` on non-ASCII letters such as "É".
  That difference never changes a comparison the estimator makes. Only two
  non-ASCII characters lower to text that contains an ASCII letter: U+0130
  gives "i" followed by U+0307, and U+212A (Kelvin sign) gives "k". U+0307
  occurs in no key, and "k" occurs neither in "male" nor in any of the five
  activity keys. So for every string, matching "male" or an activity key
  ignoring ASCII case gives the same answer as `x.lower() == key`.
- The user interface: page layout, widgets, styles, HTML summaries and
  session-state bookkeeping. The form's numeric bounds appear only as the
  inputs of `Calories.NegativeEstimateWithinFormBounds`.
- The profile store in SQLite (save and lookup by username). It is I/O against
  an external engine.
- The calls to the generative-AI model, uploaded-image packaging and the
  diagnosis prompt text. These are foreign network APIs with opaque output.
  The model's answer and the "no response" path after a failed call are
  therefore not modelled.
- Loading the translations file and the pie chart with fixed sizes. These are
  file I/O and rendering. The "none" placeholder of a language is a parameter
  of `Diagnosis.CheckSubmission`.
- The calorie reminder in the nutrition page uses a name that is never bound
  there, because `calculate_calories` is never called. It is display code,
  not estimator behaviour.
