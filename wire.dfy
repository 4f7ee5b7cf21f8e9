/** What the xiao controller's frames mean to each light generation: the 120-character
    `[x|y|z]` frame, received with length 120 (`sizeof(message_payload)`), read by the
    xiao and by the beetle `parse_message`. */
module Wire {
  import opened Shared
  import opened Decimal
  import XiaoController
  import XiaoMain
  import BeetleMain
  import XiaoPlayer

  /** The frame sent for the given readings. */
  function SentFrame(rawX: int, rawY: int, zPin: int, normalOpen: bool): seq<char>
  {
    var x, y, z := XiaoController.Classify(rawX), XiaoController.Classify(rawY),
                   XiaoController.NormaliseZ(zPin, normalOpen);
    XiaoController.FrameText(x, y, z);
    XiaoController.Frame(x, y, z)
  }

  /** The xiao lights read back exactly the classified readings; and since the controller
      sends an x of at most 2, far below the player's 1000 threshold, every input turns
      the xiao player to the left. */
  lemma ControllerToXiaoLights(rawX: int, rawY: int, zPin: int, normalOpen: bool)
    ensures var x, y, z := XiaoController.Classify(rawX), XiaoController.Classify(rawY),
                           XiaoController.NormaliseZ(zPin, normalOpen);
            && XiaoMain.Parsed(SentFrame(rawX, rawY, zPin, normalOpen), 120) == (x, y, z)
            && XiaoPlayer.Facing(x) == Left
  {
    XiaoReadsFrame(XiaoController.Classify(rawX), XiaoController.Classify(rawY),
                   XiaoController.NormaliseZ(zPin, normalOpen));
  }

  /** The xiao parser on a controller frame. */
  lemma XiaoReadsFrame(x: u8, y: u8, z: u8)
    requires x <= 2 && y <= 2 && z <= 1
    ensures XiaoMain.Parsed(XiaoController.Frame(x, y, z), 120) == (x, y, z)
  {
    XiaoController.FrameText(x, y, z);
    XiaoMain.ParseAt(XiaoController.Frame(x, y, z), 0, x, y, z, 120);
  }

  /** The beetle lights read the x reading correctly, but fold the `'|'` and the button
      into the y reading: the right field is `100 * y + 760 + z`, never `y`. */
  lemma ControllerToBeetleLights(rawX: int, rawY: int, zPin: int, normalOpen: bool)
    ensures var x, y, z := XiaoController.Classify(rawX), XiaoController.Classify(rawY),
                           XiaoController.NormaliseZ(zPin, normalOpen);
            var r := BeetleMain.Parsed(SentFrame(rawX, rawY, zPin, normalOpen), 120);
            && r == (x, 100 * y + 760 + z)
            && r.1 != y
  {
    BeetleReadsFrame(XiaoController.Classify(rawX), XiaoController.Classify(rawY),
                     XiaoController.NormaliseZ(zPin, normalOpen));
  }

  /** The beetle parser on a controller frame. */
  lemma BeetleReadsFrame(x: u8, y: u8, z: u8)
    requires x <= 2 && y <= 2 && z <= 1
    ensures BeetleMain.Parsed(XiaoController.Frame(x, y, z), 120) == (x, 100 * y + 760 + z)
  {
    XiaoController.FrameText(x, y, z);
    BeetleMain.ThreeFieldsAt(XiaoController.Frame(x, y, z), 0, x, y, z, 120);
    BeetleMain.FoldedSeparator(y, z);
  }
}
