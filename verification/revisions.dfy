/** How the two revisions of the encoder relate. */
module Revisions {
  import Keys
  import Roku
  import Legacy
  import Strings

  /**
   Both revisions send a key press to the same path. This holds because both
   encoders use the one definition `Keys.KeypressPath`; that the definition
   matches each revision's literal table is `Keys.KeypressLiterals` and
   `Legacy.KeypressEncoding`.
   */
  lemma KeypressPathsAgree(k: Keys.Key, libs: Roku.Libraries, serialize: Legacy.Command -> string)
    ensures Roku.Encode(Roku.Keypress(k), libs).Success?
    ensures Roku.Encode(Roku.Keypress(k), libs).value == Legacy.Encode(Legacy.Keypress(k), serialize)
  {
  }

  /**
   The earlier search route `search/browser` is not the later `search/browse`:
   the later revision reads an earlier search path as no command at all.
   */
  lemma LegacySearchPathNotRecognised(c: Legacy.Command, serialize: Legacy.Command -> string)
    requires c.Search?
    ensures Roku.Classify(Legacy.Encode(c, serialize)) == Roku.Unrecognised
  {
    var path := Legacy.Encode(c, serialize);
    Legacy.SearchEncoding(c, serialize);
    assert path[0] == 's' && path[13] == 'r' && |path| >= 15;
    assert !Strings.StartsWith(path, Keys.KeypressRoute + "/") by { assert (Keys.KeypressRoute + "/")[0] == 'k'; }
    assert !Strings.StartsWith(path, Roku.SearchRoute + "?") by { assert (Roku.SearchRoute + "?")[13] == '?'; }
    assert !Strings.StartsWith(path, Roku.LaunchRoute + "/") by { assert (Roku.LaunchRoute + "/")[0] == 'l'; }
    assert path != Roku.DeviceInfoRoute by { assert Roku.DeviceInfoRoute[0] == 'q'; }
  }
}
