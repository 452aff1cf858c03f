# Password generator component, modelled in Dafny

The repository is a single React component, `App`, that generates a random
password. It keeps four state values: `length` (default 8), `isNumber` and
`isChar` (default false) and `password` (default ""). One generator turns the
options into a password. It does nothing when `length < 8`. Otherwise it builds
an alphabet: 52 letters, then the ten digits if `isNumber`, then 31 special
characters if `isChar`. It then draws `length` random indices and appends
`charAt` of each one. An effect re-runs the generator after mount and after
every option change, and a button re-runs it on demand.

The model has five modules:

- `Alphabet` (`alphabet.dfy`): the three character literals, the alphabet
  `Build(isNumber, isChar)`, and facts about the literals. The letter literal
  has `q` where `u` belongs, so `q` occurs twice and `u`
  never occurs. The symbol literal holds `'` twice.
- `Sampling` (`sampling.dfy`): `Math.random()` is replaced by an oracle. Each
  draw `u` is a whole number with `u < n`, where `n` is the alphabet size. A
  draw stands for `floor(r * n)` with `r` in [0, 1). The generator's index,
  `floor(r * n + 1)`, is then `u + 1`. This module also holds JavaScript's
  `charAt` (it returns "" for an out-of-range index) and `Sampled`, the
  password that a sequence of draws produces. Its lemmas give the length and
  the characters of that password.
- `Generator` (`generator.dfy`): the generator as an imperative method. It
  has the guard, the alphabet built with `+=`, and the `for` loop. The loop
  sits in a helper method, `SampleLoop`. The method returns
  `NoOp` or `Generated(password)`.
- `Widget` (`widget.dfy`): the component as a class with the four state
  values as fields. It has one method per event, and each one calls the
  generator where the effect or the button would. The class invariant says
  that `length` stays in the range control's 0..20. It also says that
  whenever `length >= 8`, the password fits the current options: it is no
  longer than `length` and is made only of characters the generator can pick.
  `A` is never among those characters. `SetLength` regenerates only when the
  value actually changes, because an unchanged state value does not re-run
  the effect.
- `Corrected` (`corrected.dfy`): the generator as evidently intended. It uses
  the complete letter set and the index `floor(r * n)`. It sits beside the
  as-written model (see "## Findings"). The component class keeps the code's
  as-written behaviour.

The generator evidently means to produce `length` characters. The loop at
src/App.jsx:53 runs `length` times, and the label at src/App.jsx:111 shows
`Length: {length}` next to the password. As written, it produces `length`
minus the number of draws that land on index `n`. The component's contracts
follow the code: they give that exact length, and hence `|password| <= length`.

## Model

| member | source | states |
|---|---|---|
| `Alphabet.Build` | src/App.jsx:43-51 | the alphabet has 52 letters, plus 10 if digits are on, plus 31 if special characters are on; the letters come first, then the digits, and the special characters come last |
| `Alphabet.BuildSizes` | src/App.jsx:43-51 | the alphabet has 52, 62, 83 or 93 characters, and each size matches exactly one combination of the two options |
| `Alphabet.LettersTypo` | src/App.jsx:43 | the letter set has `q` at positions 42 and 46 and nowhere else, and has no lower-case `u` |
| `Alphabet.LettersFacts` | src/App.jsx:43 | every character of the letter set is an ASCII letter, and `A` occurs only at position 0 |
| `Alphabet.AOnlyFirst` | src/App.jsx:43-51 | in every alphabet the generator builds, `A` is at position 0 and nowhere after it |
| `Alphabet.OptionsExclude` | src/App.jsx:45-51 | an alphabet built without digits has no digit, and one built without special characters has no special character |
| `Alphabet.SymbolsQuoteTwice` | src/App.jsx:50 | the special-character set has 31 characters and holds `'` at positions 28 and 29 |
| `Sampling.DrawIndexRange` | src/App.jsx:54 | for a draw below `n`, the computed index lies in [1, n], and it is `n` exactly when the draw is `n - 1` |
| `Sampling.DrawIndex` | src/App.jsx:54 | the index the generator computes from a draw `u` (standing for `floor(r * n)`) is `u + 1`, and it is never 0 |
| `Sampling.CharAt` | src/App.jsx:55 | `charAt` gives one character exactly when the index is inside the string, namely the character there, and "" otherwise |
| `Sampling.Hits` | src/App.jsx:54-55 | counts the draws whose index is `n`; the count is at most the number of draws |
| `Sampling.Sampled` | src/App.jsx:53-56 | the password the loop builds: one `charAt` of the computed index per draw, appended in draw order; it has at most one character per draw |
| `Sampling.SampledLength` | src/App.jsx:53-55 | the password has one character per draw, minus one for each draw whose index is `n`, so it is never longer than the number of draws |
| `Sampling.SampledFromTail` | src/App.jsx:54-55 | every character of the password comes from the alphabet after position 0 |
| `Sampling.SampledExact` | src/App.jsx:53-55 | when no draw hits index `n`, the password has exactly one character per draw, and the k-th is the alphabet's character at draw k plus one |
| `Sampling.AllHitsGiveEmpty` | src/App.jsx:54-55 | if every draw lands on index `n`, the password is empty, whatever the number of draws |
| `Generator.PasswordGenerator` | src/App.jsx:40-60 | it does nothing exactly when `length < 8`; otherwise it gives the sampled password over the alphabet of the options, `length` minus the hits long |
| `Generator.SampleLoop` | src/App.jsx:53-56 | the loop makes `length` passes and accumulates the sampled password; its length is `length` minus the draws that hit index `n` |
| `Generator.SampleStep` | src/App.jsx:53-56 | one loop pass extends the password by that draw's `charAt` and raises the hit count only when the index is `n` |
| `Generator.GeneratedPasswordFacts` | src/App.jsx:43-55 | a generated password is no longer than the number of draws and never contains `A`; it has a digit only when digits are on and a special character only when those are on |
| `Generator.EmptyDefaultPassword` | src/App.jsx:41-58 | with the default options, eight draws of 51 are valid and give the empty password instead of eight characters |
| `Widget.PasswordWidget.Valid` | src/App.jsx:17-20 | the class invariant: `length` is within the range control's 0..20, the password has at most 20 characters and no `A`, and whenever `length >= 8` the password is at most `length` long and made of characters the generator can pick for the current options |
| `Widget.PasswordWidget.constructor` | src/App.jsx:17-20 | the initial state is length 8, both options off and an empty password, and it satisfies the invariant |
| `Widget.PasswordWidget.Generate` | src/App.jsx:40-60 | below length 8 the password is left as it was; otherwise it becomes the sampled password for the current options; only the password changes, and afterwards the invariant holds |
| `Widget.PasswordWidget.Mount` | src/App.jsx:70-72 | the effect's first run after mount runs the generator on the current options |
| `Widget.PasswordWidget.SetLength` | src/App.jsx:100-108 | the range control sets `length` to a value in 0..20; if the value changed, the generator runs with the new length; nothing else changes |
| `Widget.PasswordWidget.ToggleNumber` | src/App.jsx:114-119 | negates `isNumber` only and runs the generator with the new options |
| `Widget.PasswordWidget.ToggleChar` | src/App.jsx:124-129 | negates `isChar` only and runs the generator with the new options |
| `Widget.PasswordWidget.ClickGenerate` | src/App.jsx:136-139 | the button runs the generator on the current options |
| `Widget.GeneratedFits` | src/App.jsx:53-58 | what the generator stores is no longer than `length`, uses only characters it can pick for the options, and holds no `A` |
| `Widget.FitsExcludes` | src/App.jsx:45-51 | a password that fits the options has no digit when digits are off and no special character when those are off |
| `Widget.DefaultFitsLetters` | src/App.jsx:43-51 | a password that fits the default options consists only of ASCII letters, none of them `A` |
| `Widget.MountedPassword` | src/App.jsx:70-72 | after mount with the defaults, the password has eight characters less one per draw that hits index 52, all of them ASCII letters other than `A` |
| `Widget.NumbersFitsAlnum` | src/App.jsx:43-46 | a password that fits letters plus digits is made only of ASCII letters other than `A` and of digits |
| `Widget.NumbersOnlyPassword` | src/App.jsx:117-119 | after ticking "Number" and moving the length to 12, the password has twelve characters less one per draw that hits index 62, each an ASCII letter other than `A` or a digit, so none a special character |
| `Corrected.CorrectBuild` | src/App.jsx:43-51 | the corrected alphabet has the same sizes as the as-written one; it is the corrected letter set, then the digits if digits are on, with the special characters last if those are on |
| `Corrected.CorrectSampled` | src/App.jsx:53-56 | the password the corrected loop builds: one `charAt` at the draw itself per draw, in draw order; at most one character per draw |
| `Corrected.CorrectLettersComplete` | src/App.jsx:43 | position i of the corrected letter set holds the i-th letter of A-Z then a-z, so all 52 are distinct and `u` is present |
| `Corrected.CorrectSampledExact` | src/App.jsx:54-55 | with index `u`, each draw contributes exactly the alphabet's character at that draw |
| `Corrected.AsWrittenIsShifted` | src/App.jsx:54 | the as-written sampling equals the corrected sampling with every draw moved up by one |
| `Corrected.CorrectStep` | src/App.jsx:53-56 | one pass of the corrected loop appends that draw's character |
| `Corrected.PasswordGenerator` | src/App.jsx:40-60 | the corrected generator does nothing exactly when `length < 8`; otherwise its password has exactly `length` characters, the k-th being the alphabet's character at draw k |
| `Corrected.CorrectLoop` | src/App.jsx:53-56 | the corrected loop gives exactly `length` characters, each the alphabet's character at its draw |
| `Corrected.EveryPositionReachable` | src/App.jsx:54 | every position of the corrected alphabet can be drawn, `A` and `u` included |

## Left out

- The clipboard copy `copyPwToClip` (src/App.jsx:35-38) is left out. It selects the text field and calls the browser clipboard, which are asynchronous browser APIs outside the model.
- Rendering is left out: the JSX, the CSS classes and the DOM structure (src/App.jsx:74-147). Only the event handlers are modelled.
- `Math.random()` is left out as a floating-point value. Each draw is a whole number `u < n` that stands for `floor(r * n)`. The equation `floor(r * n + 1) == floor(r * n) + 1` over the reals is taken as given, not proved.
- React's hook mechanics are left out: `useCallback` memoisation, effect scheduling, batching and re-render timing. An option change followed by regeneration is a direct call inside each event method.
- The range control stores `e.target.value`, which is a string (src/App.jsx:107). JavaScript coerces it in `length >= 8` and `i < length`. The model takes `length` as a natural number in 0..20, so the coercion is not modelled.

## Findings

| source | as written | input that shows it | evidently intended | confidence | as-written member | corrected member |
|---|---|---|---|---|---|---|
| src/App.jsx:54 | the index is `floor(r * n + 1)`, which lies in [1, n]; index n makes `charAt` return "", and index 0 (`A`) is never used | default options with eight draws `u = 51`, so every index is 52: the password is "" instead of eight characters | index `floor(r * n)`, in [0, n): every pass appends one character and every position can be drawn | high; not executed | `Generator.EmptyDefaultPassword` | `Corrected.PasswordGenerator` |
| src/App.jsx:43 | the letter literal has `q` where the lower-case `u` belongs | the literal's positions 42 and 46 both hold `q`, so no draw can give `u` | all 52 ASCII letters, each once | high; not executed | `Alphabet.LettersTypo` | `Corrected.CorrectLettersComplete` |
