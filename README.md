# juelma in Dafny: hand-sign features, nearest-neighbour matching, phrase building and capture

juelma turns the hand skeletons of a landmark estimator into a phrase of
recognised sign-language symbols. A training page records labelled examples
into a small JSON-backed store. This project models that pipeline and proves
what it computes:

- **Features** (`HandFeatures`, from `src/scripts/reconhecimento.js`). A
  hand's 21 landmarks are translated so the wrist is at the origin. They are
  scaled by the wrist to middle-knuckle distance (divisor 1 when that
  distance is 0), flattened to 63 numbers and followed by 10 joint angles.
  The query is the Left hand's 73 values, then the Right hand's. A hand's
  values do not change when it is moved, nor, while the wrist and point 9
  are apart, when it is scaled.
- **Matching and threshold** (`Matcher`). `reconhecerGesto` runs a linear
  argmin over the catalog with strict `<`. Incompatible entries are skipped.
  A history of at most 30 scores feeds the adaptive tolerance
  `min(0.2, mean * 1.2)`. The `Recognizer` class holds `gestosDB` and
  `historicoScores`. Its `OnResults` method is the frame callback.
- **Phrase debouncer** (`PhraseDebouncer`). `frase`, `gestoAnterior` and
  `podeAdicionar` are the fields of `Phrase`. `adicionarGestoNaFrase`,
  the cooldown timer and `limparFrase` are its methods.
- **Capture session** (`Training`, from `src/scripts/treino.js`). This page
  has its own copies of the geometry, with guards: missing landmarks give
  zero vectors, a non-finite angle becomes 0, and a hand whose vector holds
  NaN or Infinity is dropped. `Session` holds `resultadoAtual` and
  `capturas`. Its methods are `onResults`, `capturarGesto`, `salvarGesto`
  and `limparCapturas`.
- **Example store** (`GestureStore`, from `api/server.js`). The POST and GET
  handlers of `/gestos` work on the document `gestos.txt`, which is held in
  memory.
- **End to end** (`Roundtrip`). A capture of clean hands, once posted, is
  matched again at distance 0 when the same hands are shown.

Numbers are `Num = Fin(real) | NonFinite`. NaN and the infinities are one
absorbing value, and `NaN || 1` is 1. `Math.sqrt` and `Math.acos` are the
fields of a `Maths` value. The ghost predicate `Lawful` states their laws:
- `sqrt` is the non-negative square root: on x >= 0 it is non-negative, 0
  exactly at 0, and `sqrt(x) * sqrt(x) == x`.
- `acos` maps [-1, 1] into [0, π], and 0 to π/2.

Lemmas that need these laws require `Lawful(m)`. The matcher's `Infinity`
(no entry compared) is the value `Infinity` of `Score`.

Behaviour of the code a reader might not expect; the model follows the code:
- An empty query (no hand) is not an automatic miss. A stored example with
  an empty vector is accepted by POST, because `[]` is truthy. Such an
  example is compatible with the empty query. Under the modelling
  assumption that `math.distance([], [])` is 0 (see "Left out"), it is
  matched at distance 0 (an instance of `ExactEntryScoresZero` with
  `q == []`).
- A miss in the history does not make recognition harder. Its `Infinity`
  makes the mean infinite, so the tolerance is exactly the base 0.2, its
  largest value (`MissKeepsBaseTolerance`).
- The tolerance is computed after the current score is pushed. When every
  remembered score is 0, the tolerance is 0 and an exact match is not
  reported (`ExactRunNotAccepted`).
- In `reconhecimento.js`, `normalizar` is declared three times. By hoisting,
  the declaration at line 159 is the one in force. Its point branch calls
  `normalizarLandmarks` and its number branch `normalizarVetor`.

## Model

| member | source | states |
|---|---|---|
| HandFeatures.Centralize | src/scripts/reconhecimento.js:14-20 | same number of points, point 0 becomes the origin, and adding the old wrist back gives each original point |
| HandFeatures.CentralizeTranslation | src/scripts/reconhecimento.js:14-20 | moving the whole hand by any offset leaves the centralised hand unchanged |
| HandFeatures.NormalizeLandmarks | src/scripts/reconhecimento.js:139-151 | length preserved; a zero wrist to point-9 distance leaves the points unchanged; every point times the divisor is the input point |
| HandFeatures.NormalizedDistanceOne | src/scripts/reconhecimento.js:139-151 | when the wrist and point 9 are apart, they are at distance exactly 1 after normalizarLandmarks |
| HandFeatures.CentralizeDilate | src/scripts/reconhecimento.js:14-20 | scaling every point by c and then centralising equals centralising and then scaling |
| HandFeatures.NormalizeDilate | src/scripts/reconhecimento.js:139-151 | when the wrist and point 9 are apart, scaling every point by any c > 0 leaves the normalised points unchanged |
| HandFeatures.NormalizeVector | src/scripts/reconhecimento.js:153-156 | length preserved; finite exactly when the input is; a NaN input or a zero norm is returned unchanged; every entry times the divisor is the input entry |
| HandFeatures.NormalizedVectorUnit | src/scripts/reconhecimento.js:153-156 | a finite vector with a non-zero norm comes out finite with sum of squares exactly 1 |
| HandFeatures.Normalize | src/scripts/reconhecimento.js:159-168 | point lists go to normalizarLandmarks and number lists to normalizarVetor, keeping kind and size; an empty list is returned unchanged |
| HandFeatures.Vetor | src/scripts/reconhecimento.js:36-42 | the displacement from a, added to a, gives b |
| HandFeatures.Clamp | src/scripts/reconhecimento.js:49 | the result lies in [-1, 1], equals the cosine whenever that already does, and is -1 below the range and 1 above it |
| HandFeatures.CalcAngle | src/scripts/reconhecimento.js:44-50 | the unguarded calcularAngulo: NaN when the length product is 0, otherwise the degrees of the acos of the clamped cosine; its properties are those of CalcAngleRange (no contract of its own) |
| HandFeatures.AngleOfRange | src/scripts/reconhecimento.js:48-49 | the acos of the clamped cosine, in degrees, lies in [0, 180] |
| HandFeatures.CalcAngleRange | src/scripts/reconhecimento.js:44-50 | the unguarded angle is NaN exactly when one vector has length 0, and otherwise lies in [0, 180] |
| HandFeatures.Angles | src/scripts/reconhecimento.js:52-73 | exactly 10 angles; entry 2f+k is joint k of finger f, fingers in the order index, middle, ring, pinky, thumb |
| HandFeatures.AnglesRange | src/scripts/reconhecimento.js:52-73 | each angle is NaN exactly at a degenerate joint and otherwise lies in [0, 180] |
| HandFeatures.ExtractAngles | src/scripts/reconhecimento.js:52-73 | the nested loop pushes exactly the angle sequence Angles |
| HandFeatures.Flatten | src/scripts/reconhecimento.js:78 | three finite numbers per point |
| HandFeatures.FlattenAt | src/scripts/reconhecimento.js:78 | entry 3i+k of the flattened list is coordinate k of point i |
| HandFeatures.NormalizedHand | src/scripts/reconhecimento.js:76-77 | the landmarks that reach the features are normalizarLandmarks of centralizar, by the dispatch of normalizar |
| HandFeatures.HandVector | src/scripts/reconhecimento.js:75-81 | a hand's vector has 73 entries |
| HandFeatures.HandVectorLayout | src/scripts/reconhecimento.js:75-81 | entries 3i+k are the normalised coordinates in landmark order, entries 63.. are the 10 angles, and the wrist's three entries are 0 |
| HandFeatures.HandVectorTranslation | src/scripts/reconhecimento.js:75-81 | the vector does not depend on where the hand is in the frame |
| HandFeatures.HandVectorScaling | src/scripts/reconhecimento.js:75-81 | when the wrist and point 9 are apart, scaling the whole hand by any c > 0 leaves its vector unchanged |
| HandFeatures.HandPart | src/scripts/reconhecimento.js:97-98 | one side's part of the query: 73 values for a present hand, none for an absent one |
| HandFeatures.QueryVector | src/scripts/reconhecimento.js:97-100 | length is 73 per present hand, so 0, 73 or 146; the Left hand's vector comes first, the Right hand's last, and no hand gives [] |
| Matcher.SumSquaredDifferencesNonNegative | src/scripts/reconhecimento.js:116 | the squared distance is never negative |
| Matcher.SumSquaredDifferencesSelf | src/scripts/reconhecimento.js:116 | the squared distance of a vector to itself is 0 |
| Matcher.DistanceNonNegative | src/scripts/reconhecimento.js:116 | math.distance is never negative |
| Matcher.DistanceSelf | src/scripts/reconhecimento.js:116 | math.distance of a vector to itself is 0 |
| Matcher.Distance | src/scripts/reconhecimento.js:116 | math.distance as the square root of the summed squared differences; its properties are those of DistanceNonNegative and DistanceSelf (no contract of its own) |
| Matcher.Compatible | src/scripts/reconhecimento.js:108-113 | the guard of the scan: same length as the normalised query and neither holds NaN; used by the MatchPrefix lemmas (no contract of its own) |
| Matcher.MatchPrefix | src/scripts/reconhecimento.js:103-124 | the scan's {label, score} after the first n entries; its properties are those of MatchPrefixNone, MatchPrefixMinimal and MatchPrefixChosen (no contract of its own) |
| Matcher.BestMatch | src/scripts/reconhecimento.js:103-124 | the scan over the whole catalog; its properties are those of BestMatchMeaning (no contract of its own) |
| Matcher.MatchPrefixNone | src/scripts/reconhecimento.js:103-124 | after any prefix of the scan, a null label and an infinite score go together, and happen exactly when no entry so far was compatible |
| Matcher.MatchPrefixMinimal | src/scripts/reconhecimento.js:103-124 | the running score is at most the distance of every compatible entry scanned so far |
| Matcher.MatchPrefixChosen | src/scripts/reconhecimento.js:103-124 | a label found belongs to a compatible entry strictly closer than every earlier compatible one, and the score is its distance |
| Matcher.BestMatchMeaning | src/scripts/reconhecimento.js:103-124 | {null, Infinity} exactly when no entry is compatible; the score is at most every compatible distance; the label is that of the first entry at the minimum, so entries of another length are never chosen and ties go to the first |
| Matcher.FindBestMatch | src/scripts/reconhecimento.js:103-124 | the loop over gestosDB returns exactly the scan's result |
| Matcher.NonFiniteQueryMatchesNothing | src/scripts/reconhecimento.js:108-113 | a query holding NaN is compared with no entry |
| Matcher.DegenerateHandMatchesNothing | src/scripts/reconhecimento.js:108-113 | a Left hand with a zero-length bone at some joint yields {null, Infinity} for any catalog |
| Matcher.DegenerateRightHandMatchesNothing | src/scripts/reconhecimento.js:108-113 | the same for the Right hand |
| Matcher.ExactEntryScoresZero | src/scripts/reconhecimento.js:106-124 | when the catalog holds the finite query itself, the score is 0 and a label is found |
| Matcher.Slide | src/scripts/reconhecimento.js:126-127 | after push and shift, the history has at most 30 scores, ends with the new one, and is a suffix of the old history plus the new score |
| Matcher.Window | src/scripts/reconhecimento.js:126-127 | the most recent scores, at most 30 of them, in arrival order |
| Matcher.SlideWindow | src/scripts/reconhecimento.js:126-127 | push and shift on the window of all scores so far gives the window with the new score |
| Matcher.TotalInfinite | src/scripts/reconhecimento.js:92-94 | the sum of the history is infinite exactly when some score is Infinity |
| Matcher.TotalOfZeros | src/scripts/reconhecimento.js:92-94 | a history of zeros sums to 0 |
| Matcher.Total | src/scripts/reconhecimento.js:92-94 | the reduce of media, from the left, Infinity absorbing; its properties are those of TotalInfinite and TotalOfZeros (no contract of its own) |
| Matcher.Mean | src/scripts/reconhecimento.js:92-94 | media: the total over the length, Infinity when the total is; used by Tolerance (no contract of its own) |
| Matcher.Tolerance | src/scripts/reconhecimento.js:129 | the tolerance never exceeds 0.2 nor 1.2 times a finite mean, and is one of the two |
| Matcher.MissKeepsBaseTolerance | src/scripts/reconhecimento.js:129 | while the history holds a miss, the tolerance is exactly 0.2 |
| Matcher.ExactRunNotAccepted | src/scripts/reconhecimento.js:129-132 | with every remembered score 0, the tolerance is 0 and score 0 is not accepted |
| Matcher.Accepted | src/scripts/reconhecimento.js:132 | the score is strictly below the tolerance, Infinity never being below; used by Recognize and ExactRunNotAccepted (no contract of its own) |
| Matcher.HandsOf | src/scripts/reconhecimento.js:229-240 | mapaMao: the last hand of each side; its properties are those of LastHand (no contract of its own) |
| Matcher.LastHand | src/scripts/reconhecimento.js:231-240 | mapaMao has a side exactly when some detection has it, and holds the landmarks of the last such detection |
| Matcher.Recognizer.constructor | src/scripts/reconhecimento.js:7-12 | empty catalog and empty history |
| Matcher.Recognizer.LoadCatalog | src/scripts/reconhecimento.js:83-85 | the catalog becomes what GET /gestos lists |
| Matcher.Recognizer.HandPartOf | src/scripts/reconhecimento.js:97-98 | vetorUnificado of a present hand, [] for an absent one |
| Matcher.Recognizer.Recognize | src/scripts/reconhecimento.js:96-136 | the returned vector is the query, the score is the scan's minimum, the history slides by that score and stays the window of all scores, and the gesture is the scan's label exactly when the score is below the tolerance |
| Matcher.Recognizer.OnResults | src/scripts/reconhecimento.js:224-249 | without hand data nothing changes; otherwise the recognizer runs on the last hand of each side, and the phrase gets the gesture exactly when adicionarGestoNaFrase's guard holds |
| PhraseDebouncer.Phrase.constructor | src/scripts/reconhecimento.js:8-10 | empty phrase, no previous symbol, accepting |
| PhraseDebouncer.Phrase.Add | src/scripts/reconhecimento.js:172-183 | appends exactly when the symbol is non-null, non-empty, differs from gestoAnterior and no cooldown is pending, then records it and starts a cooldown of 700 to 999 ms; otherwise nothing changes; the phrase invariant is kept |
| PhraseDebouncer.Phrase.CooldownExpired | src/scripts/reconhecimento.js:181 | the timer callback re-enables appending and keeps the invariant |
| PhraseDebouncer.Phrase.Clear | src/scripts/reconhecimento.js:189-193 | empties the phrase, forgets the last symbol, leaves a pending cooldown alone |
| PhraseDebouncer.Scenarios | src/scripts/reconhecimento.js:172-193 | a worked example, with no contract of its own: holding "A" for 20 frames adds it once, A, B, A with cooldowns expiring gives A B A, and clearing empties the phrase |
| GestureStore.Store.constructor | api/server.js:23 | no file: the store reads as [] |
| GestureStore.Store.Post | api/server.js:14-34 | a missing or empty label or a missing vector is rejected with 400 and leaves the document as it was; otherwise exactly one record is appended after the unchanged earlier ones, and total is the old length plus 1 |
| GestureStore.Store.Get | api/server.js:37-42 | lists the stored records in order, [] when there is no file |
| GestureStore.PostThenGet | api/server.js:14-42 | after a successful POST, GET lists the earlier records and the posted one last |
| Training.SquaredLengthFinite | src/scripts/treino.js:25-28 | on a finite difference the squared length is the exact one, and not negative |
| Training.Centralize | src/scripts/treino.js:10-18 | an empty list stays empty; length preserved; finite exactly when the input is |
| Training.CentralizeAgrees | src/scripts/treino.js:10-18 | on finite landmarks it is the recognizer's centralizar |
| Training.Scale | src/scripts/treino.js:25-29 | the divisor `distance || 1` is always a finite non-zero number; this holds in the model only because NaN and Infinity are one value that `|| 1` replaces, while in JavaScript `Infinity || 1` is Infinity (see "Left out") |
| Numeric.OrOne | src/scripts/treino.js:29 | `x || 1` on a number: x itself when x is finite and non-zero, otherwise 1; never 0 |
| Training.Normalize | src/scripts/treino.js:20-36 | with point 0 or point 9 missing the list is returned unchanged; length preserved; finite exactly when the input is |
| Training.NormalizeAgrees | src/scripts/treino.js:20-36 | on finite landmarks with a point 9 it is the recognizer's normalizarLandmarks |
| Training.Lookup | src/scripts/treino.js:72-73 | `landmarks[j]` is present exactly when j is in range |
| Training.Vetor | src/scripts/treino.js:38-45 | a missing endpoint gives the zero vector; finite endpoints give the recognizer's displacement |
| Training.CalcAngleRange | src/scripts/treino.js:47-56 | the guarded angle always lies in [0, 180] |
| Training.CalcAngleZeroVector | src/scripts/treino.js:47-56 | against the zero vector the divisor is 1, the cosine 0 and the angle 90 |
| Training.FiniteAngle | src/scripts/treino.js:47-56 | calcularAngulo on finite vectors, with divisor `mag1 * mag2 || 1`; used by CalcAngle (no contract of its own) |
| Training.CalcAngle | src/scripts/treino.js:47-56 | the guarded angle: FiniteAngle on finite vectors, 0 otherwise; its properties are those of CalcAngleRange, CalcAngleZeroVector and CalcAngleAgrees (no contract of its own) |
| Training.CalcAngleAgrees | src/scripts/treino.js:47-56 | wherever the recognizer's unguarded angle is defined, the guarded one is the same number |
| Training.Angles | src/scripts/treino.js:58-80 | exactly 10 angles, entry 2f+k being joint k of finger f, fingers in the order index, middle, ring, pinky, thumb |
| Training.AnglesRange | src/scripts/treino.js:58-80 | every training angle lies in [0, 180] |
| Training.JointStep | src/scripts/treino.js:69-77 | one inner pass appends the angle of the current joint at its place |
| Training.ExtractAngles | src/scripts/treino.js:58-80 | the nested loop pushes exactly Angles |
| Training.Flatten | src/scripts/treino.js:132 | three numbers per point |
| Training.FlattenFinite | src/scripts/treino.js:132 | the positional part is finite exactly when every landmark is |
| Training.FlattenAgrees | src/scripts/treino.js:132 | on finite landmarks it is the recognizer's flattening |
| Training.NormalizedHand | src/scripts/treino.js:129-130 | length preserved, finite exactly when the landmarks are |
| Training.HandVector | src/scripts/treino.js:129-134 | 3 values per landmark plus 10 angles |
| Training.ValidExactlyWhenFinite | src/scripts/treino.js:82-84 | vetorFinalValido accepts a hand's vector exactly when every raw coordinate is finite |
| Training.NormalizedAgrees | src/scripts/treino.js:129-130 | on 21 finite landmarks the normalised hand is the recognizer's |
| Training.JointAgrees | src/scripts/treino.js:72-74 | at a joint where the recognizer's angle is defined, both pages compute the same angle |
| Training.AnglesAgree | src/scripts/treino.js:133 | with every recognizer angle defined, both pages produce the same 10 angles |
| Training.AgreesWithRecognizer | src/scripts/treino.js:129-134 | a finite hand without a degenerate joint gets the same 73 values on both pages |
| Training.SideVector | src/scripts/treino.js:122-146 | the vector onResults leaves for one side after n detections; its properties are those of SideVectorFinite, SideVectorPresent and SideVectorLast (no contract of its own) |
| Training.SideVectorFinite | src/scripts/treino.js:136-142 | every vector kept for a side passes vetorFinalValido |
| Training.SideVectorPresent | src/scripts/treino.js:122-146 | a side holds a vector exactly when some detection of that side has finite landmarks |
| Training.SideVectorLast | src/scripts/treino.js:122-146 | a side's vector is that of its last usable detection: later hands replace earlier ones, invalid hands replace nothing |
| Training.Unify | src/scripts/treino.js:172-176 | left then right, a missing side counting as []; finite when both sides are; [] when both are missing |
| Training.Upper | src/scripts/treino.js:179 | same length, a-z become A-Z, every other character stays |
| Training.UpperIdempotent | src/scripts/treino.js:179 | upper-casing twice is upper-casing once |
| Training.Submissions | src/scripts/treino.js:169-183 | one record per capture, in order, each the store's record for {upper(label), "Libras", left ++ right} |
| Training.ComputeVector | src/scripts/treino.js:129-134 | the per-hand steps of onResults compute HandVector |
| Training.Session.constructor | src/scripts/treino.js:2-3 | no captures and an empty current result |
| Training.Session.OnResults | src/scripts/treino.js:116-150 | each frame resets both sides; without hand data they stay null; otherwise each side holds the last valid hand of that side, and every kept vector is finite |
| Training.Session.CaptureGesture | src/scripts/treino.js:154-161 | refused, with capturas unchanged, when no hand is present; otherwise one copy of the current result is appended at the end |
| Training.Session.ClearCaptures | src/scripts/treino.js:190-194 | capturas becomes empty |
| Training.Session.SaveGesture | src/scripts/treino.js:163-187 | refused with an empty label or no capture, changing nothing; otherwise the store gains Submissions(upper(label), capturas) after its earlier records, and capturas is cleared |
| Roundtrip.SideAgrees | src/scripts/treino.js:129-134 | a clean hand's stored side is its recognizer vector, and is finite |
| Roundtrip.StoredCaptureScoresZero | src/scripts/treino.js:169-182 | a stored capture of clean hands is matched at distance 0, with a label found, when the same hands are shown to the recognizer |

## Left out

- Camera, MediaPipe `Hands`, canvas drawing, the DOM, `alert`, `console` and `exibirDebug`: these are input, output and display. The estimator's result is a parameter: `Option<seq<Detection>>`, where None stands for missing `multiHandLandmarks` or `multiHandedness`.
- `falarFrase`, `atualizarFrase` and lib/utils/speech.ts: speech synthesis and display only.
- `fetch`, `axios.post`, Express, `cors`, `bodyParser` and `fs`. The store is an in-memory document that may be absent. HTTP failures are not modelled, nor is a partial batch of POSTs after a failure.
- `JSON.parse` of an unreadable document has no model: the document is always well formed.
- The lost update when two POSTs interleave their read-modify-write is a concurrency issue and is not modelled.
- GestureStore.Store.Post: takes the label as a string and the vector as a list of numbers. The handler accepts any truthy JSON value for either, so `{label: "A", vetor: 1}` is stored, and `normalizarVetor` at src/scripts/reconhecimento.js:107 and :154 would then throw on every frame. Bodies of other shapes are not modelled.
- Training.Session.SaveGesture: posts every capture of a snapshot of `capturas` in one atomic step. The source awaits each `axios.post`, so `capturarGesto`, `limparCapturas` or a second `salvarGesto` can run in between, and the loop re-reads `capturas.length` and `capturas[i]` each time. Those interleavings are not modelled.
- Matcher.Distance: `math.distance` is modelled as the Euclidean distance for every length, including 0. Whether mathjs accepts two empty vectors, or throws, is not modelled; `math.distance([], []) = 0` is a modelling assumption.
- Training.Scale: NaN and Infinity are one value, so a landmark with an infinite coordinate gets divisor 1 in the model; in JavaScript `Math.sqrt(Infinity) || 1` is Infinity. Either way the hand's vector is not finite and `vetorFinalValido` rejects it, so what is stored does not change.
- `setTimeout` is the explicit event `Phrase.CooldownExpired`. `Math.random()` is a parameter in [0, 1).
- Floating point: coordinates are exact reals with no rounding or overflow. NaN and ±Infinity are one value `NonFinite`, so the model cannot tell them apart. `Math.sqrt`, `Math.acos` and `math.distance` are uninterpreted apart from the laws in `Lawful`. The BigNumber conversion of `math.distance` is the identity.
- The shadowed `normalizar` declarations at src/scripts/reconhecimento.js:23 and :87 are dead code. Only the effective one at line 159 is modelled. Its `console.warn` branch cannot be reached with the point and number lists the model passes.
- Training.Upper: `toUpperCase` is modelled for ASCII letters only. Other scripts' case mappings are not.
- Training.CalcAngle: instead of testing `isFinite` on the result, it tests the finiteness of the two input vectors. The two tests agree, because a NaN or infinite coordinate makes the cosine NaN and the angle non-finite. That argument is not itself proved, since NonFinite does not separate NaN from Infinity.
- Training.CalcAngleZeroVector: stated for the exact zero vector that a missing landmark produces. A finite vector of length 0 gives 90 as well, but that is not proved: it needs `x * x == 0` to imply `x == 0`, which the model does not derive.
- Matcher.Recognizer.OnResults: requires every detection to carry 21 landmarks, as the estimator guarantees. Shorter landmark lists would make `landmarks[9]` undefined, and that is not modelled.
- A handedness label other than "Left" or "Right" does not arise, since `Side` has only those two values.
