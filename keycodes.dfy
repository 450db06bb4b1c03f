/**
 * Key-code resolution: the symbolic Android key names a remote sends are
 * turned into the numeric codes that `adb shell input keyevent` expects.
 */
module KeyCodes {
  import opened Wrappers

  /** The fixed table of known key names and their numeric codes. */
  const KeyCodeTable: map<string, string> := map[
    "KEYCODE_POWER" := "26",
    "KEYCODE_HOME" := "3",
    "KEYCODE_MENU" := "82",
    "KEYCODE_BACK" := "4",
    "KEYCODE_DPAD_UP" := "19",
    "KEYCODE_DPAD_DOWN" := "20",
    "KEYCODE_DPAD_LEFT" := "21",
    "KEYCODE_DPAD_RIGHT" := "22",
    "KEYCODE_DPAD_CENTER" := "23",
    "KEYCODE_VOLUME_UP" := "24",
    "KEYCODE_VOLUME_DOWN" := "25",
    "KEYCODE_VOLUME_MUTE" := "164",
    "KEYCODE_MEDIA_PLAY_PAUSE" := "85",
    "KEYCODE_MEDIA_PLAY" := "126",
    "KEYCODE_MEDIA_PAUSE" := "127",
    "KEYCODE_MEDIA_STOP" := "86",
    "KEYCODE_MEDIA_NEXT" := "87",
    "KEYCODE_MEDIA_PREVIOUS" := "88",
    "KEYCODE_MEDIA_REWIND" := "89",
    "KEYCODE_MEDIA_FAST_FORWARD" := "90",
    "KEYCODE_SEARCH" := "84",
    "KEYCODE_APP_SWITCH" := "187"
  ]

  /** The code sent for every name the table does not know: the centre/select key. */
  const DefaultKeyCode: string := "23"

  /** A non-empty run of decimal digits. */
  predicate IsDecimal(s: string) {
    |s| > 0 && forall i :: 0 <= i < |s| ==> '0' <= s[i] <= '9'
  }

  /**
   * `get_key_code(key_name)`; `None` stands for a command without a `code`
   * field. Total: every name gets a decimal code.
   */
  function KeyCode(name: Option<string>): (code: string)
    ensures IsDecimal(code)
    ensures name.Some? && name.value in KeyCodeTable ==> code == KeyCodeTable[name.value]
    ensures (name.None? || name.value !in KeyCodeTable) ==> code == DefaultKeyCode
  {
    match name
    case Some(n) => if n in KeyCodeTable then KeyCodeTable[n] else DefaultKeyCode
    case None => DefaultKeyCode
  }

  /** Power, home, menu, back, search and app switch resolve to their listed codes. */
  lemma SystemKeyCodes()
    ensures KeyCode(Some("KEYCODE_POWER")) == "26"
    ensures KeyCode(Some("KEYCODE_HOME")) == "3"
    ensures KeyCode(Some("KEYCODE_MENU")) == "82"
    ensures KeyCode(Some("KEYCODE_BACK")) == "4"
    ensures KeyCode(Some("KEYCODE_SEARCH")) == "84"
    ensures KeyCode(Some("KEYCODE_APP_SWITCH")) == "187"
  {
  }

  /** The five directional-pad keys resolve to their listed codes. */
  lemma DpadKeyCodes()
    ensures KeyCode(Some("KEYCODE_DPAD_UP")) == "19"
    ensures KeyCode(Some("KEYCODE_DPAD_DOWN")) == "20"
    ensures KeyCode(Some("KEYCODE_DPAD_LEFT")) == "21"
    ensures KeyCode(Some("KEYCODE_DPAD_RIGHT")) == "22"
    ensures KeyCode(Some("KEYCODE_DPAD_CENTER")) == "23"
  {
  }

  /** The three volume keys resolve to their listed codes. */
  lemma VolumeKeyCodes()
    ensures KeyCode(Some("KEYCODE_VOLUME_UP")) == "24"
    ensures KeyCode(Some("KEYCODE_VOLUME_DOWN")) == "25"
    ensures KeyCode(Some("KEYCODE_VOLUME_MUTE")) == "164"
  {
  }

  /** The eight media-transport keys resolve to their listed codes. */
  lemma MediaKeyCodes()
    ensures KeyCode(Some("KEYCODE_MEDIA_PLAY_PAUSE")) == "85"
    ensures KeyCode(Some("KEYCODE_MEDIA_PLAY")) == "126"
    ensures KeyCode(Some("KEYCODE_MEDIA_PAUSE")) == "127"
    ensures KeyCode(Some("KEYCODE_MEDIA_STOP")) == "86"
    ensures KeyCode(Some("KEYCODE_MEDIA_NEXT")) == "87"
    ensures KeyCode(Some("KEYCODE_MEDIA_PREVIOUS")) == "88"
    ensures KeyCode(Some("KEYCODE_MEDIA_REWIND")) == "89"
    ensures KeyCode(Some("KEYCODE_MEDIA_FAST_FORWARD")) == "90"
  {
  }

  /**
   * An unknown name, a missing name and `KEYCODE_DPAD_CENTER` are the only
   * inputs that resolve to the default code: no other table entry shares it.
   */
  lemma DefaultCodeExactly(name: Option<string>)
    ensures KeyCode(name) == DefaultKeyCode
        <==> name.None? || name.value !in KeyCodeTable || name.value == "KEYCODE_DPAD_CENTER"
  {
  }
}
