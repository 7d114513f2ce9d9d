/**
  One pass of the capture loop with the browser taken out: the frame the
  canvas produced is classified, and a round is played with the detected
  gesture as the player's move unless the label is unknown.
 */
module Capture {
  import opened Game
  import opened Frame

  /** Handles one captured frame. `randomIndex` stands for the computer's draw
      of the round this frame may trigger; `played` tells whether it did. */
  method DetectGesture(s: GameState, data: seq<Byte>, width: nat, height: nat, randomIndex: RandomIndex)
    returns (next: GameState, played: bool)
    requires |data| == width * height * 4
    ensures played <==> SkinCount(data, width, height) > 2880
    ensures !played ==> next == s
    ensures played ==> next == PlayRound(s, ClassifyCount(SkinCount(data, width, height)).choice, randomIndex).after
    ensures next.player == s.player || next.computer == s.computer
  {
    var gesture := AnalyzeFrame(data, width, height);
    if gesture != Unknown {
      var round := PlayRound(s, gesture.choice, randomIndex);
      next, played := round.after, true;
    } else {
      next, played := s, false;
    }
  }
}
