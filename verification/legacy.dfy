/**
 The earlier revision of the encoder, `src/main.rs`: the same key presses, a
 `search/browser` route whose serialized query string is cleaned by dropping
 twelve reserved characters and deleting the word "Search", and `urlify`,
 which appends the path to a fixed device address.

 `serde_qs::to_string` is outside the model: the serializer is a parameter
 and its output is an uninterpreted string.
 */
module Legacy {
  import opened Wrappers
  import Keys
  import Strings

  /** `ROKU_DEVICE_IP`: the one device address this revision talks to. */
  const DeviceBase: string := "http://192.168.1.3:8060"

  const SearchRoute: string := "search/browser"

  /** The enum variant name the serializer writes into the query string. */
  const SearchWord: string := "Search"

  /** `RokuCommand` of this revision: the key presses and an inline search variant. */
  datatype Command =
    | Keypress(key: Keys.Key)
    | Search(keyword: string, kind: Option<string>, title: Option<string>,
             season: Option<string>, launch: Option<bool>)

  /** `HTML_RESERVED_CHARS`. */
  const ReservedChars: seq<char> := ['?', '[', ']', '@', '#', ':', '<', '>', '&', '"', '-', '_']

  predicate IsReserved(c: char)
  {
    c in ReservedChars
  }

  predicate NoReserved(s: string)
  {
    forall i :: 0 <= i < |s| ==> !IsReserved(s[i])
  }

  /** `a` is obtained from `b` by deleting characters, keeping the order of the rest. */
  predicate IsSubsequence(a: string, b: string)
    decreases |b|
  {
    if |a| == 0 then true
    else if |b| == 0 then false
    else (a[0] == b[0] && IsSubsequence(a[1..], b[1..])) || IsSubsequence(a, b[1..])
  }

  /**
   `.chars().filter(|c| !HTML_RESERVED_CHARS.contains(c)).collect()`: the
   reserved characters are dropped and every other character is kept, in order.
   */
  function StripReserved(s: string): (r: string)
    ensures NoReserved(r)
    ensures |r| <= |s|
  {
    if |s| == 0 then []
    else if IsReserved(s[0]) then StripReserved(s[1..])
    else [s[0]] + StripReserved(s[1..])
  }

  /** Filtering only deletes: what is left keeps its order. */
  lemma {:induction false} StripReservedIsDeletion(s: string)
    ensures IsSubsequence(StripReserved(s), s)
    decreases |s|
  {
    if |s| > 0 {
      StripReservedIsDeletion(s[1..]);
      var rest := StripReserved(s[1..]);
      if IsReserved(s[0]) {
        assert s[1..] == s[1..][0..];
        SubsequenceOfSuffix(rest, s, 1);
      } else {
        assert ([s[0]] + rest)[1..] == rest;
      }
    }
  }

  /** Filtering keeps every occurrence of every character that is not reserved. */
  lemma {:induction false} StripReservedKeepsOthers(s: string, c: char)
    requires !IsReserved(c)
    ensures multiset(StripReserved(s))[c] == multiset(s)[c]
    decreases |s|
  {
    if |s| > 0 {
      StripReservedKeepsOthers(s[1..], c);
      assert s == [s[0]] + s[1..];
      assert multiset(s) == multiset([s[0]]) + multiset(s[1..]);
      if !IsReserved(s[0]) {
        var rest := StripReserved(s[1..]);
        assert multiset([s[0]] + rest) == multiset([s[0]]) + multiset(rest);
      }
    }
  }

  /** `pat` occurs in `s` starting at index `i`. */
  predicate OccursAt(s: string, pat: string, i: int)
  {
    0 <= i <= |s| && Strings.StartsWith(s[i..], pat)
  }

  predicate Contains(s: string, pat: string)
  {
    exists i :: 0 <= i <= |s| && OccursAt(s, pat, i)
  }

  /**
   `s.replace(pat, "")`: occurrences are found left to right in `s` itself,
   do not overlap, and are deleted; the text between them is kept.
   */
  function RemoveAll(s: string, pat: string): (r: string)
    decreases |s|
    ensures |r| <= |s|
  {
    if |pat| == 0 || |s| < |pat| then s
    else if Strings.StartsWith(s, pat) then RemoveAll(s[|pat|..], pat)
    else [s[0]] + RemoveAll(s[1..], pat)
  }

  /** The query-string clean-up: reserved characters first, then the word "Search". */
  function CleanQuery(raw: string): (r: string)
    ensures NoReserved(r)
    ensures |r| <= |raw|
  {
    var stripped := StripReserved(raw);
    RemoveAllIsDeletion(stripped, SearchWord);
    SubsequenceKeepsClean(RemoveAll(stripped, SearchWord), stripped);
    RemoveAll(stripped, SearchWord)
  }

  /** A subsequence of a suffix is a subsequence of the whole. */
  lemma {:induction false} SubsequenceOfSuffix(a: string, b: string, k: nat)
    requires k <= |b|
    requires IsSubsequence(a, b[k..])
    ensures IsSubsequence(a, b)
    decreases k
  {
    if k == 0 {
      assert b[0..] == b;
    } else {
      assert b[1..][k - 1..] == b[k..];
      SubsequenceOfSuffix(a, b[1..], k - 1);
    }
  }

  /** Deleting characters cannot introduce a reserved one. */
  lemma {:induction false} SubsequenceKeepsClean(a: string, b: string)
    requires IsSubsequence(a, b)
    requires NoReserved(b)
    ensures NoReserved(a)
    decreases |b|
  {
    if |a| > 0 {
      assert NoReserved(b[1..]) by {
        assert forall i :: 0 <= i < |b[1..]| ==> b[1..][i] == b[i + 1];
      }
      if a[0] == b[0] && IsSubsequence(a[1..], b[1..]) {
        SubsequenceKeepsClean(a[1..], b[1..]);
        assert forall i :: 0 < i < |a| ==> a[i] == a[1..][i - 1];
      } else {
        SubsequenceKeepsClean(a, b[1..]);
      }
    }
  }

  /** Removing the pattern only deletes characters: the result is a subsequence. */
  lemma {:induction false} RemoveAllIsDeletion(s: string, pat: string)
    ensures IsSubsequence(RemoveAll(s, pat), s)
    decreases |s|
  {
    var r := RemoveAll(s, pat);
    if |pat| == 0 || |s| < |pat| {
      SubsequenceReflexive(s);
    } else if s[..|pat|] == pat {
      RemoveAllIsDeletion(s[|pat|..], pat);
      SubsequenceOfSuffix(r, s, |pat|);
    } else {
      RemoveAllIsDeletion(s[1..], pat);
      assert r[0] == s[0] && r[1..] == RemoveAll(s[1..], pat);
    }
  }

  lemma {:induction false} SubsequenceReflexive(s: string)
    ensures IsSubsequence(s, s)
    decreases |s|
  {
    if |s| > 0 {
      SubsequenceReflexive(s[1..]);
    }
  }

  /**
   `Display for RokuCommand` of this revision. A key press is read back from
   its path; a search path starts with the search route and reads back as no key.
   */
  function Encode(c: Command, serialize: Command -> string): (r: string)
    ensures c.Keypress? ==> Keys.KeyOfPath(r) == Some(c.key)
    ensures c.Search? ==> Strings.StartsWith(r, SearchRoute + "?") && Keys.KeyOfPath(r) == None
  {
    match c
    case Keypress(k) =>
      Keys.KeypressPathReadBack(k);
      Keys.KeypressPath(k)
    case Search(_, _, _, _, _) =>
      var path := SearchRoute + "?" + CleanQuery(serialize(c));
      assert path[..|SearchRoute + "?"|] == SearchRoute + "?";
      assert path[0] != (Keys.KeypressRoute + "/")[0];
      path
  }

  /** The command path of a URL on the fixed device, if it is one. */
  function PathOnDevice(url: string): Option<string>
  {
    var prefix := DeviceBase + "/";
    if Strings.StartsWith(url, prefix) then Some(url[|prefix|..]) else None
  }

  /** `urlify`: the device address, a slash, and the encoded command, which can be read back. */
  function Urlify(c: Command, serialize: Command -> string): (r: string)
    ensures PathOnDevice(r) == Some(Encode(c, serialize))
  {
    var url := DeviceBase + "/" + Encode(c, serialize);
    assert url[..|DeviceBase + "/"|] == DeviceBase + "/";
    url
  }

  /** Filtering changes nothing exactly when there is nothing reserved to drop. */
  lemma {:induction false} StripReservedKeepsClean(s: string)
    ensures StripReserved(s) == s <==> NoReserved(s)
    decreases |s|
  {
    if |s| > 0 {
      StripReservedKeepsClean(s[1..]);
      if !IsReserved(s[0]) {
        assert NoReserved(s) <==> NoReserved(s[1..]) by {
          assert forall i :: 0 < i < |s| ==> s[i] == s[1..][i - 1];
        }
        var rest := StripReserved(s[1..]);
        assert StripReserved(s) == [s[0]] + rest;
        assert ([s[0]] + rest)[1..] == rest;
        assert s == [s[0]] + s[1..];
      } else {
        assert |StripReserved(s)| < |s| by {
          assert |StripReserved(s[1..])| <= |s[1..]|;
        }
      }
    }
  }

  /** Filtering twice is filtering once. */
  lemma StripReservedIdempotent(s: string)
    ensures StripReserved(StripReserved(s)) == StripReserved(s)
  {
    StripReservedKeepsClean(StripReserved(s));
  }

  /** A string with no occurrence of the pattern comes back unchanged. */
  lemma {:induction false} RemoveAllWithoutOccurrence(s: string, pat: string)
    requires |pat| > 0
    requires !Contains(s, pat)
    ensures RemoveAll(s, pat) == s
    decreases |s|
  {
    if |s| >= |pat| {
      assert !OccursAt(s, pat, 0);
      assert !Contains(s[1..], pat) by {
        forall i | 0 <= i <= |s[1..]| && OccursAt(s[1..], pat, i)
          ensures false
        {
          assert s[1..][i..i + |pat|] == s[i + 1..i + 1 + |pat|];
          assert OccursAt(s, pat, i + 1);
        }
      }
      RemoveAllWithoutOccurrence(s[1..], pat);
    }
  }

  /** A string that does not start with the pattern keeps its first character. */
  lemma RemoveAllKeepsHead(s: string, pat: string)
    requires |pat| > 0 && |pat| <= |s| && !OccursAt(s, pat, 0)
    ensures RemoveAll(s, pat) == [s[0]] + RemoveAll(s[1..], pat)
  {
    assert s[0..|pat|] == s[..|pat|];
  }

  /** A leading occurrence is deleted and the search resumes after it. */
  lemma RemoveAllSkipsMatch(pat: string, b: string)
    requires |pat| > 0
    ensures RemoveAll(pat + b, pat) == RemoveAll(b, pat)
  {
    var s := pat + b;
    assert s[..|pat|] == pat;
    assert s[|pat|..] == b;
  }

  /** Dropping the first character of `a` shifts the occurrence-free prefix by one. */
  lemma NoEarlyOccurrenceShifts(a: string, pat: string, b: string)
    requires |a| > 0
    requires forall i :: 0 <= i < |a| ==> !OccursAt(a + pat + b, pat, i)
    ensures forall i :: 0 <= i < |a| - 1 ==> !OccursAt(a[1..] + pat + b, pat, i)
  {
    var s, s' := a + pat + b, a[1..] + pat + b;
    assert s[1..] == s';
    forall i | 0 <= i < |a| - 1
      ensures !OccursAt(s', pat, i)
    {
      assert !OccursAt(s, pat, i + 1);
      assert s[i + 1..i + 1 + |pat|] == s'[i..i + |pat|];
    }
  }

  /**
   Left to right and without overlap: the first occurrence is deleted, the text
   before it is kept as it is, and the search resumes after the deleted
   occurrence, never inside it.
   */
  lemma {:induction false} RemoveAllFirstOccurrence(a: string, pat: string, b: string)
    requires |pat| > 0
    requires forall i :: 0 <= i < |a| ==> !OccursAt(a + pat + b, pat, i)
    ensures RemoveAll(a + pat + b, pat) == a + RemoveAll(b, pat)
    decreases |a|
  {
    if |a| == 0 {
      assert a + pat + b == pat + b;
      RemoveAllSkipsMatch(pat, b);
    } else {
      var s, a' := a + pat + b, a[1..];
      var tail := RemoveAll(a' + pat + b, pat);
      assert RemoveAll(s, pat) == [a[0]] + tail by {
        assert !OccursAt(s, pat, 0);
        assert s[1..] == a' + pat + b;
        assert s[0] == a[0];
        RemoveAllKeepsHead(s, pat);
      }
      assert tail == a' + RemoveAll(b, pat) by {
        NoEarlyOccurrenceShifts(a, pat, b);
        RemoveAllFirstOccurrence(a', pat, b);
      }
      assert [a[0]] + (a' + RemoveAll(b, pat)) == a + RemoveAll(b, pat) by {
        assert a == [a[0]] + a';
      }
    }
  }

  /** Back-to-back occurrences are both deleted. */
  lemma RemoveAllAdjacent()
    ensures RemoveAll("SearchSearch", SearchWord) == ""
  {
    RemoveAllFirstOccurrence("", SearchWord, "");
    assert "" + SearchWord + "" == SearchWord;
    RemoveAllFirstOccurrence("", SearchWord, SearchWord);
    assert "" + SearchWord + SearchWord == "SearchSearch";
  }

  /** One pass only: deleting can join two halves into a new "Search". */
  lemma RemoveAllIsSinglePass()
    ensures RemoveAll("SeaSearchrch", SearchWord) == SearchWord
  {
    var s := "Sea" + SearchWord + "rch";
    assert s == "SeaSearchrch";
    forall i | 0 <= i < 3 ensures !OccursAt(s, SearchWord, i) {
      assert s[i + 3] != SearchWord[3];
    }
    RemoveAllFirstOccurrence("Sea", SearchWord, "rch");
    assert RemoveAll("rch", SearchWord) == "rch";
    assert "Sea" + "rch" == SearchWord;
  }

  /** The search path: the route, then the query string with nothing reserved left in it. */
  lemma SearchEncoding(c: Command, serialize: Command -> string)
    requires c.Search?
    ensures Encode(c, serialize) == "search/browser?" + CleanQuery(serialize(c))
    ensures NoReserved(StripReserved(serialize(c)))
    ensures NoReserved(Encode(c, serialize)[|"search/browser?"|..])
  {
    assert SearchRoute + "?" == "search/browser?";
  }

  /** Every URL goes to the one hard-coded device: its address, a slash, then the command's path. */
  lemma UrlifyOnFixedDevice(c: Command, serialize: Command -> string)
    ensures Urlify(c, serialize) == "http://192.168.1.3:8060/" + Encode(c, serialize)
  {
    assert DeviceBase + "/" == "http://192.168.1.3:8060/";
  }

  /** Key presses keep the shared literal paths in this revision. */
  lemma KeypressEncoding(k: Keys.Key, serialize: Command -> string)
    ensures Encode(Keypress(k), serialize) == "keypress/" + Keys.Name(k)
    ensures Urlify(Keypress(Keys.Home), serialize) == "http://192.168.1.3:8060/keypress/Home"
  {
    assert Keys.KeypressRoute + "/" == "keypress/";
    assert Keys.Name(Keys.Home) == "Home";
    assert DeviceBase + "/" + ("keypress/" + "Home") == "http://192.168.1.3:8060/keypress/Home";
  }
}
