# Rock-paper-scissors with a webcam gesture heuristic, in Dafny

The game plays rock-paper-scissors against the computer. The player's move comes
from a button or from a webcam frame. A frame is classified by a skin-tone
heuristic. A fixed 120 x 120 window centred on the frame is scanned, and window
positions that fall outside the frame are skipped. The pixels whose red, green
and blue values pass an integer skin-tone test are counted. The count is
divided by the unclipped window area of 14400. The ratio is then thresholded at
0.20, 0.25 and 0.40 into `unknown`, `scissors`, `rock` or `paper`. A round
draws the computer's move from an index in 0..2. It decides the winner by the
usual cycle and adds one to the winner's score; a tie changes nothing. A reset
sets both scores to zero.

The project has four modules:

- `Game` (`game.dfy`): moves, outcomes, the computer's draw, the round
  evaluator, the score record, rounds, sessions and reset.
- `Frame` (`frame.dfy`): the pixel buffer, the skin test, the recursive
  reference count of skin pixels in the window, the threshold cascade, and the
  classifier `AnalyzeFrame` as a method with the source's nested loops.
- `FrameProperties` (`frame_properties.dfy`): clipping bounds, frames without
  skin, a window full of skin, and independence from the alpha channel.
- `Capture` (`capture.dfy`): one pass of the capture loop, where a frame
  triggers a round only when its label is not `unknown`.

Modelling choices:

- The browser's random number becomes a parameter. `Math.floor(Math.random() * 3)`
  is the `RandomIndex` argument, a value in 0..2.
- The score counters live in a `GameState` record. Each operation takes the
  record and returns the new one.
- The skin ratio is an exact rational (`real`). With a denominator of 14400
  the comparisons `> 0.20`, `> 0.25` and `> 0.40` are the integer comparisons
  `count > 2880`, `> 3600` and `> 5760`. `ClassifyCount` proves this. The
  floating-point division gives the same answers, because IEEE division is
  correctly rounded and monotone. The boundary counts 2880, 3600 and 5760 give
  exactly the doubles of 0.2, 0.25 and 0.4. Every other count lies at least
  1/14400 from a threshold, far more than one unit in the last place.
- The pixel buffer is a `seq<Byte>` with `|data| == width * height * 4` as a
  precondition. The code does no length check and raises no error on a
  mismatched buffer, so the model has no error case for it.

## Model

| member | source | states |
|---|---|---|
| Game.ComputerChoice | script.js:39-43 | the computer's move is the entry of `choices` (rock, paper, scissors) at the drawn index 0..2 |
| Game.ComputerChoiceCoversEveryMove | script.js:40-42 | each move is drawn by exactly one index, so the draw reaches all three moves |
| Game.DetermineWinner | script.js:46-60 | tie exactly when the moves are equal; player wins exactly when the player's move beats the computer's on the cycle rock, paper, scissors; computer wins exactly when the computer's move beats the player's |
| Game.DetermineWinnerAntisymmetric | script.js:46-60 | swapping the two moves swaps `player` and `computer` and keeps `tie` |
| Game.Record | script.js:69-82 | a tie leaves both scores alone; a player win adds 1 to the player score only; a computer win adds 1 to the computer score only; a round never changes both scores |
| Game.Reset | script.js:94-96 | both scores become 0, whatever they were |
| Game.PlayRound | script.js:86-91 | a round draws the computer's move from the index, and its outcome follows the precedence; each score grows by one exactly when its side wins |
| Game.PlaySession | script.js:86-91 | rounds played one after another (repeated `playRound`) never lower a score, and each round adds at most one point in all |
| Game.SessionScores | script.js:69-91 | after any sequence of rounds each score has grown by exactly the number of rounds its side won |
| Game.SessionAfterReset | script.js:94-96 | after a reset the scores equal the tallies of player and computer wins since |
| Frame.PixelInBounds | script.js:216-223 | for an in-frame (x, y), all four channels at offset (y*width+x)*4 lie within a buffer of width*height*4 values, so every read of the scan is in bounds |
| Frame.RowCount | script.js:217-231 | the count of row-segment pixels that are in the frame and pass the skin test `IsSkin` (r > 50, g > 40, b > 30, r > b, g > b, r < 220, g < 200, b < 180; alpha not read) is at most the segment length |
| Frame.WindowCount | script.js:216-233 | the skin count of a rectangle is at most its area |
| Frame.SkinCount | script.js:208-233 | the skin count of the 120 x 120 window centred at (floor(width/2), floor(height/2)) is at most 14400 |
| Frame.SkinRatioInUnitInterval | script.js:213-236 | the skin ratio over the unclipped area 14400 lies in [0, 1] |
| Frame.Classify | script.js:238-257 | the cascade maps a ratio <= 0.20 to unknown, (0.20, 0.25] to scissors, (0.25, 0.40] to rock and > 0.40 to paper |
| Frame.ClassifyCount | script.js:236-257 | label is unknown iff count <= 2880, scissors iff 2880 < count <= 3600, rock iff 3600 < count <= 5760, paper iff count > 5760 (strict comparisons at 0.20, 0.25, 0.40) |
| Frame.ClassifyMonotone | script.js:238-257 | the label is monotone in the skin count under unknown < scissors < rock < paper |
| Frame.AnalyzeFrame | script.js:199-258 | the nested scan with its bounds guard reads only in-bounds channels, counts the pixels passing `IsSkin`, and returns the label of the reference skin count of the window |
| FrameProperties.RowCountClipped | script.js:217-218 | a row segment holds no more skin pixels than it has in-frame positions |
| FrameProperties.WindowCountClipped | script.js:216-218 | a rectangle holds no more skin pixels than it has in-frame positions |
| FrameProperties.SkinCountClipped | script.js:216-218 | for every frame, the window's skin count is at most the number of window pixels inside the frame |
| FrameProperties.SmallWindowIsUnknown | script.js:216-238 | a frame whose clipped window holds at most 2880 pixels is always unknown, because the denominator stays 14400 |
| FrameProperties.SmallFrameIsUnknown | script.js:213-238 | a frame of at most 2880 pixels in all is always unknown |
| FrameProperties.WindowCountZero | script.js:216-233 | a rectangle's skin count is 0 exactly when none of its pixels is an in-frame skin-toned pixel |
| FrameProperties.NoSkinIsUnknown | script.js:216-238 | the skin count is 0 exactly when no pixel of the sampling window is skin-toned (skin outside the window does not matter), and then the label is unknown |
| FrameProperties.DarkFrameIsUnknown | script.js:227-238 | a frame whose red channel never exceeds 50, such as an all-black frame, is unknown |
| FrameProperties.FullSkinWindowIsPaper | script.js:213-247 | a window made entirely of skin-toned frame pixels gives count 14400 (ratio 1) and label paper |
| FrameProperties.AlphaIgnored | script.js:219-229 | frames that agree on red, green and blue get the same count and label whatever their alpha values: alpha is never read |
| Capture.DetectGesture | script.js:182-192 | a round is played with the detected gesture as the player's move exactly when the label is not unknown (skin count > 2880); otherwise the scores are unchanged |

## Left out

- DOM lookups, `innerHTML`/`textContent`/style writes, emoji rendering, the
  message texts and colours, and event-listener wiring (script.js:4-22,
  63-67, 97-103, 261-272). These are display only and carry no logic beyond
  the score changes that `Game.Record` models.
- `startCamera`, `stopCamera`, `loadModel` and `startRecognition`
  (script.js:107-165). These acquire and release the camera and are browser I/O.
- The `requestAnimationFrame` scheduling of `detectGesture` and its
  `isCameraActive` early return (script.js:168-172, 195). `Capture.DetectGesture`
  models one pass of the loop body on a frame already captured.
- Canvas `drawImage`/`getImageData` (script.js:175-179). The frame arrives
  as a parameter.
- `Math.random` (script.js:41). It is replaced by the injected `RandomIndex`.
- Floating-point division of the skin count. It is modelled as exact rational
  division, which gives the same comparisons for every count 0..14400, as
  argued above.
- Moves outside rock, paper and scissors. The code passes only these three
  strings to `determineWinner`, so the `Choice` datatype has no other values.
- Determinism of the classifier is not stated as a separate lemma. Every
  member is a Dafny function or a method specified by one, so equal inputs
  give equal results by construction.
