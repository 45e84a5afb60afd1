/** The name of the screenshot file written when an accident is detected:
    `screenshots/accident_<safe name>_<safe timestamp>.jpg`. Both detectors
    build it the same way. */
module Screenshot {

  /** Letters and digits (ASCII only). */
  predicate IsAlnum(c: char)
  {
    'a' <= c <= 'z' || 'A' <= c <= 'Z' || '0' <= c <= '9'
  }

  /** The characters kept in the video name. */
  predicate IsSafe(c: char)
  {
    IsAlnum(c) || c == ' ' || c == '.' || c == '_'
  }

  /** The ASCII characters that `rstrip` removes: space, tab to carriage
      return, and the four separators 0x1C to 0x1F. */
  predicate IsWhitespace(c: char)
  {
    c == ' ' || '\t' <= c <= '\r' || '\U{1C}' <= c <= '\U{1F}'
  }

  /** The characters of `s` that are safe, in their order. */
  function KeepSafe(s: string): (r: string)
    ensures |r| <= |s|
    ensures forall i | 0 <= i < |r| :: IsSafe(r[i])
  {
    if s == [] then []
    else (if IsSafe(s[0]) then [s[0]] else []) + KeepSafe(s[1..])
  }

  /** `s` without its trailing whitespace. */
  function RStrip(s: string): (r: string)
    ensures |r| <= |s| && r == s[..|r|]
    ensures r == [] || !IsWhitespace(r[|r| - 1])
    ensures forall i | |r| <= i < |s| :: IsWhitespace(s[i])
  {
    if s != [] && IsWhitespace(s[|s| - 1]) then RStrip(s[..|s| - 1]) else s
  }

  /** The video name as it appears in the file name. */
  function SafeVideoName(videoName: string): (r: string)
    ensures forall i | 0 <= i < |r| :: IsSafe(r[i])
    ensures r == [] || r[|r| - 1] != ' '
  {
    RStrip(KeepSafe(videoName))
  }

  /** The timestamp with every ':' replaced by '-'. */
  function ReplaceColons(timestamp: string): (r: string)
    ensures |r| == |timestamp|
    ensures forall i | 0 <= i < |r| :: r[i] == (if timestamp[i] == ':' then '-' else timestamp[i])
  {
    if timestamp == [] then []
    else [if timestamp[0] == ':' then '-' else timestamp[0]] + ReplaceColons(timestamp[1..])
  }

  const Prefix := "screenshots/accident_"
  const Extension := ".jpg"

  /** The path of the screenshot for a video name and a formatted timestamp. */
  function Path(videoName: string, timestamp: string): (p: string)
    ensures |p| == |Prefix| + |SafeVideoName(videoName)| + 1 + |timestamp| + |Extension|
    ensures p[..|Prefix|] == Prefix && p[|p| - |Extension|..] == Extension
  {
    Prefix + SafeVideoName(videoName) + "_" + ReplaceColons(timestamp) + Extension
  }

  /** Filtering distributes over concatenation: the kept characters of a
      string are those of its parts, in the same order. */
  lemma {:induction false} KeepSafeAppend(a: string, b: string)
    ensures KeepSafe(a + b) == KeepSafe(a) + KeepSafe(b)
  {
    if a != [] {
      assert (a + b)[1..] == a[1..] + b;
      KeepSafeAppend(a[1..], b);
    } else {
      assert a + b == b;
    }
  }

  /** Every safe character is kept as often as it occurs; no other character is kept. */
  lemma {:induction false} KeepSafeCounts(s: string, c: char)
    ensures multiset(KeepSafe(s))[c] == if IsSafe(c) then multiset(s)[c] else 0
  {
    if s != [] {
      KeepSafeCounts(s[1..], c);
      assert s == [s[0]] + s[1..];
    }
  }

  /** A name made only of safe characters passes the filter unchanged. */
  lemma {:induction false} KeepSafeOfSafe(s: string)
    requires forall i | 0 <= i < |s| :: IsSafe(s[i])
    ensures KeepSafe(s) == s
  {
    if s != [] {
      KeepSafeOfSafe(s[1..]);
      assert [s[0]] + s[1..] == s;
    }
  }

  /** Filtering twice is filtering once. */
  lemma KeepSafeIdempotent(s: string)
    ensures KeepSafe(KeepSafe(s)) == KeepSafe(s)
  {
    KeepSafeOfSafe(KeepSafe(s));
  }

  /** The path holds no ':' anywhere: the colons of the timestamp are all
      replaced, and neither the name nor the fixed parts contain one. */
  lemma PathHasNoColon(videoName: string, timestamp: string)
    ensures ':' !in Path(videoName, timestamp)
  {
    var p := Path(videoName, timestamp);
    var name, ts := SafeVideoName(videoName), ReplaceColons(timestamp);
    assert p == Prefix + name + "_" + ts + Extension;
    forall i | 0 <= i < |p| ensures p[i] != ':' {
      if i < |Prefix| {
        assert p[i] == Prefix[i];
      } else if i < |Prefix| + |name| {
        assert p[i] == name[i - |Prefix|];
      } else if i == |Prefix| + |name| {
      } else if i < |Prefix| + |name| + 1 + |ts| {
        assert p[i] == ts[i - |Prefix| - |name| - 1];
      } else {
        assert p[i] == Extension[i - |Prefix| - |name| - 1 - |ts|];
      }
    }
  }

  /** A timestamp as the application formats it: digits and colons. */
  predicate ClockText(timestamp: string)
  {
    forall i | 0 <= i < |timestamp| :: '0' <= timestamp[i] <= '9' || timestamp[i] == ':'
  }

  /** For one video, two different formatted timestamps give two different
      screenshot paths. */
  lemma PathDistinguishesTimestamps(videoName: string, t1: string, t2: string)
    requires ClockText(t1) && ClockText(t2)
    requires Path(videoName, t1) == Path(videoName, t2)
    ensures t1 == t2
  {
    var head := Prefix + SafeVideoName(videoName) + "_";
    var r1, r2 := ReplaceColons(t1), ReplaceColons(t2);
    var p1, p2 := head + r1 + Extension, head + r2 + Extension;
    assert p1 == Path(videoName, t1) && p2 == Path(videoName, t2);
    assert |r1| == |r2|;
    assert r1 == p1[|head|..|head| + |r1|];
    assert r2 == p2[|head|..|head| + |r2|];
    forall i | 0 <= i < |t1| ensures t1[i] == t2[i] {
      assert r1[i] == r2[i];
    }
  }
}
