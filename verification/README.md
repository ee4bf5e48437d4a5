# Emotion detection from face landmarks — Dafny model

The browser app feeds webcam frames to a face-mesh detector. For each detected
face it derives three signed features from fixed landmark coordinates:

- `mouthOpen`, the vertical gap between points 13 and 14;
- `browRaise`, the vertical offset between points 10 and 151;
- `smile`, the horizontal offset between points 48 and 54.

An ordered `if / else if` chain of strict thresholds turns these into one
label: Happy, Surprised, Shocked, Angry, or the default Neutral. That label
overwrites the text on the page.

The model has five modules:

- `Landmarks` (`landmarks.dfy`): points with real coordinates. It also finds the first landmark read that a short set cannot satisfy.
- `Features` (`features.dfy`): the feature definitions and `Extract`. `Extract` either measures a set or names the absent point that the script would dereference. The script reads 13, 14, 10, 151, 48 and 54 in that order, so a short set fails at 13, 14 or 151.
- `Emotion` (`emotion.dfy`): the label type, the four thresholds and `Classify`, the if / else-if chain.
- `RuleTable` (`rule_table.dfy`): a declarative rule table evaluated first-match-wins. It is an independent reference definition, and `ClassifyIsFirstMatch` proves that the chain and the table agree on every input.
- `Display` (`display.dfy`): the result handler `processResults`. It classifies each reported face front to back and overwrites one shared label. The module also states what a sequence of callbacks leaves on screen.

Coordinates are exact `real`s. Labels are a datatype, not the emoji strings.

How the script handles faces:

- It classifies every face in a callback, front to back. The last face's label stays on screen.
- A callback with no faces, or no face list at all, leaves the label unchanged.
- A landmark set with 151 points or fewer makes the script throw at the first read of a missing point. The model writes that throw as `Err(InsufficientLandmarks(i))`, where `i` is the index whose read fails. In `processResults` the throw ends the loop. Faces classified earlier in the same callback keep their effect on the label.

## Model

| member | source | states |
|---|---|---|
| Features.Extract | script.js:74-76 | A set can be measured exactly when it has more than 151 points. Then the three features are y[13]−y[14], y[10]−y[151] and x[48]−x[54]. Otherwise the failing index is 13 if the set has at most 13 points, 14 if it has exactly 14, and 151 otherwise, always an index the set lacks |
| Landmarks.FirstMissing | script.js:74-76 | The reads happen in order. The first one past the end is the one that fails. No failure occurs only if every read index is present, and every read before the failing one is present |
| Features.ExtractReadsOnlyItsLandmarks | script.js:74-76 | Two sets that agree on y of points 10, 13, 14, 151 and x of points 48, 54 give the same extraction result if they have the same length or are both long enough to classify |
| Emotion.Classify | script.js:78-82 | The five labels split feature space into disjoint regions. Happy iff smile > 0.02. Surprised iff not Happy and browRaise > 0.03. Shocked iff neither earlier rule fires and mouthOpen > 0.05. Angry iff no earlier rule fires and browRaise < −0.02. Neutral iff no rule fires |
| Emotion.SmileTakesPrecedence | script.js:79 | A smile above 0.02 gives Happy for every brow raise and mouth opening |
| Emotion.ThresholdsAreStrict | script.js:79-82 | Each feature exactly at its threshold, with the others at zero, gives Neutral |
| Emotion.OneExamplePerLabel | script.js:78-82 | Sample feature vectors give Happy, Surprised, Shocked, Angry and Neutral. Three rules firing at once gives Happy |
| RuleTable.FirstMatch | script.js:78-82 | Gives the position of a rule that fires with no firing rule before it. Gives none exactly when no rule fires |
| RuleTable.EarliestFiringRuleDecides | script.js:78-82 | When a rule fires and no earlier rule does, the table's result is that rule's label |
| RuleTable.NeutralIsTheDefault | script.js:78 | In a table with no Neutral rule, the result is Neutral exactly when no rule fires |
| RuleTable.ClassifyIsFirstMatch | script.js:78-82 | For every feature vector, the if / else-if chain gives the same label as first-match evaluation of the table Happy(smile>0.02), Surprised(browRaise>0.03), Shocked(mouthOpen>0.05), Angry(browRaise<−0.02) |
| Display.DetectEmotion | script.js:73-84 | A face gets a label exactly when it has more than 151 points. That label is the classification of the three coordinate differences. Otherwise the failing read is an index the set lacks |
| Display.DetectEmotionReadsOnlyItsLandmarks | script.js:73-82 | Points other than 10, 13, 14, 151 (y) and 48, 54 (x) cannot change a face's result. This holds for sets of the same length, or for any two sets long enough to classify |
| Display.ExtraPointsChangeNothing | script.js:73-82 | Appending points to a classifiable set leaves its emotion unchanged |
| Display.TwelvePointFaceIsRejected | script.js:74 | A twelve-point face fails at the read of point 13. As the only face of a callback, it leaves the label unchanged |
| Display.ShowEach | script.js:37-40 | The loop finishes exactly when every face can be classified. The label is then the last face's label, or unchanged if there are no faces. Otherwise it stops at the first short face, and the label is that of the face before it, or unchanged if it is the first |
| Display.ProcessResults | script.js:36-41 | An absent or empty face list leaves the label unchanged. A complete run leaves the last face's label. A stop is at the first short face, and the label is that of the face before it, or unchanged if the first face is short |
| Display.Session | script.js:27 | Folds successive result callbacks, each applied to the label the previous one left. No callbacks leave the initial label. A callback with an absent or empty face list leaves the label as the earlier callbacks left it. A callback whose faces are all classifiable shows its last face's label |
| Display.SessionShowsLatestFace | script.js:32-41 | Suppose every face in a run of callbacks can be classified. Then the final label is that of the last face in the latest callback that reported any face, or the initial label if no callback did |

## Left out

- Canvas drawing (`drawLandmarks`, `clearRect`, `drawImage`) is rendering only and changes no label. In the script, `drawLandmarks` runs before classification and itself reads points 10 and 151. So a short set actually throws inside the drawing code. The effect on the label is the same as modelled: that face changes nothing and the loop stops.
- Camera start-up (`startCamera`) and the canvas resizing listener are browser media I/O.
- The face-mesh detector's construction, options and CDN location are a foreign library. Its landmark lists are taken as given input.
- The 100 ms `setInterval` send loop and callback delivery are timing and asynchrony. `Display.Session` applies callbacks in order and assumes a thrown exception does not stop later callbacks. `SessionShowsLatestFace` needs no such assumption, because under its precondition nothing throws.
- IEEE-754 rounding: coordinates and thresholds are exact reals. Points with NaN or missing `x`/`y` fields are not modelled.
- The emoji label strings are modelled as the `Label` datatype. The page's text before the first classification comes from markup that is not part of this model, so it is the opaque `Placeholder`.
