/**
 The remote-control buttons of the Roku External Control Protocol that both
 revisions of the command enum can send, and the `keypress/<key>` path that
 both revisions build for them.
 */
module Keys {
  import opened Wrappers
  import Strings

  /** The thirteen keypress variants, in the order the enum declares them. */
  datatype Key =
    | Home | Play | Pause | Select | Left | Right | Down | Up | Back
    | VolumeUp | VolumeDown | Mute | PowerOff

  /** The protocol prefix for key presses (`key_cmd` in both encoders). */
  const KeypressRoute: string := "keypress"

  /** The protocol's key value; the encoders spell it exactly like the variant. */
  function Name(k: Key): string
  {
    match k
    case Home => "Home"
    case Play => "Play"
    case Pause => "Pause"
    case Select => "Select"
    case Left => "Left"
    case Right => "Right"
    case Down => "Down"
    case Up => "Up"
    case Back => "Back"
    case VolumeUp => "VolumeUp"
    case VolumeDown => "VolumeDown"
    case Mute => "Mute"
    case PowerOff => "PowerOff"
  }

  /** Reads a key value back; the inverse of `Name`. */
  function FromName(s: string): (r: Option<Key>)
    ensures r.Some? ==> Name(r.value) == s
  {
    if s == "Home" then Some(Home)
    else if s == "Play" then Some(Play)
    else if s == "Pause" then Some(Pause)
    else if s == "Select" then Some(Select)
    else if s == "Left" then Some(Left)
    else if s == "Right" then Some(Right)
    else if s == "Down" then Some(Down)
    else if s == "Up" then Some(Up)
    else if s == "Back" then Some(Back)
    else if s == "VolumeUp" then Some(VolumeUp)
    else if s == "VolumeDown" then Some(VolumeDown)
    else if s == "Mute" then Some(Mute)
    else if s == "PowerOff" then Some(PowerOff)
    else None
  }

  /** `format!("{key_cmd}/<Name>")`: the wire path of a key press. */
  function KeypressPath(k: Key): string
  {
    KeypressRoute + "/" + Name(k)
  }

  /** Reads a key-press path back into its key; the inverse of `KeypressPath`. */
  function KeyOfPath(path: string): Option<Key>
  {
    var prefix := KeypressRoute + "/";
    if Strings.StartsWith(path, prefix) then FromName(path[|prefix|..]) else None
  }

  /** Every key's name is read back as that key. */
  lemma NameRoundTrip(k: Key)
    ensures FromName(Name(k)) == Some(k)
  {
  }

  /** The key is recovered from its wire path. */
  lemma KeypressPathReadBack(k: Key)
    ensures KeyOfPath(KeypressPath(k)) == Some(k)
  {
    var prefix := KeypressRoute + "/";
    var path := KeypressPath(k);
    assert path[..|prefix|] == prefix;
    assert path[|prefix|..] == Name(k);
    NameRoundTrip(k);
  }

  /** No two keys share a path. */
  lemma KeypressPathInjective(k1: Key, k2: Key)
    ensures KeypressPath(k1) == KeypressPath(k2) <==> k1 == k2
  {
    KeypressPathReadBack(k1);
    KeypressPathReadBack(k2);
  }

  /** The literal path of each of the thirteen keys. */
  lemma KeypressLiterals()
    ensures KeypressPath(Home) == "keypress/Home"
    ensures KeypressPath(Play) == "keypress/Play"
    ensures KeypressPath(Pause) == "keypress/Pause"
    ensures KeypressPath(Select) == "keypress/Select"
    ensures KeypressPath(Left) == "keypress/Left"
    ensures KeypressPath(Right) == "keypress/Right"
    ensures KeypressPath(Down) == "keypress/Down"
    ensures KeypressPath(Up) == "keypress/Up"
    ensures KeypressPath(Back) == "keypress/Back"
    ensures KeypressPath(VolumeUp) == "keypress/VolumeUp"
    ensures KeypressPath(VolumeDown) == "keypress/VolumeDown"
    ensures KeypressPath(Mute) == "keypress/Mute"
    ensures KeypressPath(PowerOff) == "keypress/PowerOff"
  {
    assert KeypressRoute + "/" == "keypress/";
  }
}
