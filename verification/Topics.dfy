/**
 Feed topics "<user>/feeds/<feed>": built into and parsed out of character buffers the way
 the C library does it, with the exact condition under which parsing undoes building.
 */
module Topics {
  import opened Wrappers
  import opened CStrings

  const SEP: Text := "/feeds/"

  const EINVAL := 22
  const ENOMEM := 12

  /** The buffer starts with `text` and a NUL, and is as before from there on. */
  ghost predicate Holds(now: seq<char>, before: seq<char>, text: string) {
    && |now| == |before| && |text| < |before|
    && now == text + ['\0'] + before[|text| + 1..]
  }

  // ---- finding the separator ----

  predicate OccursAt(s: string, i: nat) {
    i + |SEP| <= |s| && s[i..i + |SEP|] == SEP
  }

  /** `strstr` for the separator: the first place where it occurs. */
  method FindSep(s: string) returns (r: Option<nat>)
    ensures r == None ==> forall i: nat :: !OccursAt(s, i)
    ensures r.Some? ==> OccursAt(s, r.value) && forall i: nat :: i < r.value ==> !OccursAt(s, i)
  {
    var i := 0;
    while i < |s|
      invariant 0 <= i <= |s|
      invariant forall j: nat :: j < i ==> !OccursAt(s, j)
    {
      if i + |SEP| <= |s| && s[i..i + |SEP|] == SEP { return Some(i); }
      i := i + 1;
    }
    return None;
  }

  /** The first occurrence, as a function for specifications. */
  ghost function FirstSep(s: string): (r: Option<nat>)
    ensures r == None ==> forall i: nat :: !OccursAt(s, i)
    ensures r.Some? ==> OccursAt(s, r.value) && forall i: nat :: i < r.value ==> !OccursAt(s, i)
  {
    FirstSepFrom(s, 0)
  }

  ghost function FirstSepFrom(s: string, from: nat): (r: Option<nat>)
    requires from <= |s|
    ensures r == None ==> forall i: nat :: from <= i ==> !OccursAt(s, i)
    ensures r.Some? ==> OccursAt(s, r.value) && forall i: nat :: from <= i < r.value ==> !OccursAt(s, i)
    ensures r.Some? ==> from <= r.value
    decreases |s| - from
  {
    if OccursAt(s, from) then Some(from)
    else if from == |s| then None
    else FirstSepFrom(s, from + 1)
  }

  // ---- copying ----

  /** `strcpy` at an offset; `strcat` is this at the end of what is there. */
  method CopyTo(dst: array<char>, at: nat, src: Text)
    requires at + |src| < dst.Length
    modifies dst
    ensures dst[..] == old(dst[..at]) + src + ['\0'] + old(dst[at + |src| + 1..])
  {
    var i := 0;
    while i < |src|
      invariant 0 <= i <= |src|
      invariant forall j :: 0 <= j < i ==> dst[at + j] == src[j]
      invariant forall j :: 0 <= j < dst.Length && (j < at || at + i <= j) ==> dst[j] == old(dst[j])
    {
      dst[at + i] := src[i];
      i := i + 1;
    }
    dst[at + i] := '\0';
    assert dst[..at] == old(dst[..at]);
    assert dst[at..at + |src|] == src;
    assert dst[at + |src| + 1..] == old(dst[at + |src| + 1..]);
    assert dst[..] == dst[..at] + dst[at..at + |src|] + [dst[at + |src|]] + dst[at + |src| + 1..];
  }

  /** `strlen` of the buffer: where its first NUL is. */
  method EndOf(b: array<char>) returns (n: nat)
    requires '\0' in b[..]
    ensures n < b.Length && b[n] == '\0' && forall j :: 0 <= j < n ==> b[j] != '\0'
  {
    n := 0;
    while b[n] != '\0'
      invariant n < b.Length
      invariant forall j :: 0 <= j < n ==> b[j] != '\0'
      invariant '\0' in b[n..]
      decreases b.Length - n
    {
      assert b[n..][1..] == b[n + 1..];
      n := n + 1;
    }
  }

  lemma EndIsLength(text: Text, rest: seq<char>, n: nat)
    requires var b := text + ['\0'] + rest; n < |b| && b[n] == '\0' && forall j :: 0 <= j < n ==> b[j] != '\0'
    ensures n == |text|
  {
    var b := text + ['\0'] + rest;
    assert b[|text|] == '\0';
    forall i | 0 <= i < |text| ensures b[i] != '\0' {
      assert text[i] in text;
    }
  }

  method StrCpy(dst: array<char>, src: Text)
    requires |src| < dst.Length
    modifies dst
    ensures Holds(dst[..], old(dst[..]), src)
  {
    CopyTo(dst, 0, src);
  }

  method StrCat(dst: array<char>, ghost before: seq<char>, ghost have: Text, src: Text)
    requires |have| + |src| < dst.Length && Holds(dst[..], before, have)
    modifies dst
    ensures Holds(dst[..], before, have + src)
  {
    assert dst[..][|have|] == '\0';
    var n := EndOf(dst);
    EndIsLength(have, before[|have| + 1..], n);
    assert dst[..n] == have;
    assert dst[n + |src| + 1..] == dst[..][n + |src| + 1..] == before[n + |src| + 1..];
    CopyTo(dst, n, src);
  }

  lemma HoldsMeans(now: seq<char>, before: seq<char>, text: Text, size: nat)
    requires Holds(now, before, text) && |text| < size <= |before|
    ensures CString(now) == text && now[size..] == before[size..]
  {
    CStringOf(text, before[|text| + 1..]);
  }

  // ---- build ----

  function Topic(user: Text, feed: Text): Text {
    user + SEP + feed
  }

  /** Builds the topic, or refuses and writes nothing when the stated size is too small. */
  method BuildFeed(user: Text, feed: Text, out: array<char>, outLen: nat) returns (r: int)
    requires outLen <= out.Length
    modifies out
    ensures r == if |user| + 7 + |feed| < outLen then 0 else -12
    ensures r == 0 ==> Holds(out[..], old(out[..]), Topic(user, feed)) && CString(out[..]) == Topic(user, feed)
    ensures r != 0 ==> out[..] == old(out[..])
    ensures out[outLen..] == old(out[outLen..])
  {
    hide CString, Holds;
    var needed := |user| + |feed| + |SEP| + 1;
    if needed > outLen { return -ENOMEM; }
    ghost var before := out[..];
    StrCpy(out, user);
    StrCat(out, before, user, SEP);
    StrCat(out, before, user + SEP, feed);
    HoldsMeans(out[..], before, Topic(user, feed), outLen);
    assert out[outLen..] == out[..][outLen..];
    r := 0;
  }

  // ---- parse ----

  datatype Parsed = Ok(user: string, feed: string) | NoMatch | TooLong

  /** The meaning of parsing: cut at the first separator. */
  ghost function Parse(topic: string, maxLen: nat): Parsed {
    match FirstSep(topic)
    case None => NoMatch
    case Some(i) =>
      if i >= maxLen || |topic| - i - |SEP| >= maxLen then TooLong
      else Ok(topic[..i], topic[i + |SEP|..])
  }

  lemma FirstSepUnique(s: string, i: nat)
    requires OccursAt(s, i) && forall j: nat :: j < i ==> !OccursAt(s, j)
    ensures FirstSep(s) == Some(i)
  {
    var r := FirstSep(s);
    assert r.Some?;
    assert OccursAt(s, r.value) && OccursAt(s, i);
  }

  /** The first place where the topic holds the seven characters of the separator. */
  ghost predicate SplitsAt(topic: string, i: nat) {
    SeparatorAt(topic, i) && forall j: nat :: j < i ==> !SeparatorAt(topic, j)
  }

  predicate SeparatorAt(topic: string, i: nat) {
    i + 7 <= |topic| && topic[i..i + 7] == "/feeds/"
  }

  lemma ParseWhen(topic: string, maxLen: nat)
    ensures Parse(topic, maxLen).Ok? <==> exists i: nat :: SplitsAt(topic, i) && i < maxLen && |topic| - i - 7 < maxLen
    ensures forall i: nat :: SplitsAt(topic, i) <==> FirstSep(topic) == Some(i)
  {
    forall i: nat ensures SeparatorAt(topic, i) <==> OccursAt(topic, i) {}
    hide SeparatorAt, OccursAt;
    forall i: nat ensures SplitsAt(topic, i) <==> FirstSep(topic) == Some(i) {
      if SplitsAt(topic, i) { FirstSepUnique(topic, i); }
    }
  }

  /** `strncpy` of n characters of the topic, all of which exist. */
  method StrNCpy(dst: array<char>, src: string, n: nat)
    requires n <= |src| && n <= dst.Length
    modifies dst
    ensures dst[..] == src[..n] + old(dst[n..])
  {
    var i := 0;
    while i < n
      invariant 0 <= i <= n
      invariant forall j :: 0 <= j < i ==> dst[j] == src[j]
      invariant forall j :: i <= j < dst.Length ==> dst[j] == old(dst[j])
    {
      dst[i] := src[i];
      i := i + 1;
    }
    assert dst[..n] == src[..n] && dst[n..] == old(dst[n..]);
    assert dst[..] == dst[..n] + dst[n..];
  }

  /**
   Cuts a topic at its first separator into two buffers.  On failure neither buffer is
   touched; on success nothing beyond the stated size is.
   */
  method ParseFeed(topic: Text, userOut: array<char>, feedOut: array<char>, maxLen: nat) returns (r: int)
    requires userOut != feedOut && maxLen <= userOut.Length && maxLen <= feedOut.Length
    modifies userOut, feedOut
    ensures match Parse(topic, maxLen)
            case Ok(user, feed) =>
              && r == 0
              && Holds(userOut[..], old(userOut[..]), user) && CString(userOut[..]) == user
              && Holds(feedOut[..], old(feedOut[..]), feed) && CString(feedOut[..]) == feed
            case NoMatch => r == -EINVAL && userOut[..] == old(userOut[..]) && feedOut[..] == old(feedOut[..])
            case TooLong => r == -ENOMEM && userOut[..] == old(userOut[..]) && feedOut[..] == old(feedOut[..])
    ensures userOut[maxLen..] == old(userOut[maxLen..]) && feedOut[maxLen..] == old(feedOut[maxLen..])
    ensures r == 0 || r == -22 || r == -12
    ensures r == 0 <==> exists i: nat :: SplitsAt(topic, i) && i < maxLen && |topic| - i - 7 < maxLen
  {
    hide CString;
    ParseWhen(topic, maxLen);
    var feeds := FindSep(topic);
    if feeds == None {
      assert FirstSep(topic) == None;
      return -EINVAL;
    }
    var userLen := feeds.value;
    FirstSepUnique(topic, userLen);
    var feedLen := |topic| - userLen - |SEP|;
    if userLen >= maxLen || feedLen >= maxLen { return -ENOMEM; }
    ghost var u, f := userOut[..], feedOut[..];
    var user: Text, feed: Text := topic[..userLen], topic[userLen + |SEP|..];
    StrNCpy(userOut, topic, userLen);
    userOut[userLen] := '\0';
    assert userOut[..] == user + ['\0'] + u[userLen + 1..];
    assert Holds(userOut[..], u, user);
    hide Holds, FirstSep, OccursAt;
    StrCpy(feedOut, feed);
    HoldsMeans(userOut[..], u, user, maxLen);
    HoldsMeans(feedOut[..], f, feed, maxLen);
    assert userOut[maxLen..] == userOut[..][maxLen..] && feedOut[maxLen..] == feedOut[..][maxLen..];
    r := 0;
  }

  // ---- the codec ----

  predicate EndsIn(s: string, t: string) {
    |t| <= |s| && s[|s| - |t|..] == t
  }

  /** A user name that contains no separator and does not end in one less its last slash. */
  predicate SafeUser(user: string) {
    (forall i :: 0 <= i <= |user| ==> !OccursAt(user, i)) && !EndsIn(user, "/feeds")
  }

  lemma SepAtUser(user: string, feed: string)
    ensures OccursAt(user + SEP + feed, |user|)
  {
    assert (user + SEP + feed)[|user|..|user| + |SEP|] == SEP;
  }

  /** The separator overlaps itself only on its slash. */
  lemma EarlierOccurrence(user: string, feed: string, i: nat)
    requires i < |user|
    ensures OccursAt(user + SEP + feed, i) <==> OccursAt(user, i) || (i == |user| - 6 && EndsIn(user, "/feeds"))
  {
    var s := user + SEP + feed;
    if i + |SEP| <= |user| {
      assert s[i..i + |SEP|] == user[i..i + |SEP|];
    } else {
      var d := |user| - i;
      assert 1 <= d <= 6;
      var w := s[i..i + |SEP|];
      assert w == user[i..] + SEP[..|SEP| - d];
      if d < 6 {
        Shifted(user[i..], d);
      } else {
        assert SEP[..1] == "/";
        assert "/feeds" + "/" == SEP;
        if user[i..] == "/feeds" { assert w == SEP; }
        if w == SEP { assert user[i..] == w[..6] == "/feeds"; }
      }
    }
  }

  lemma Shifted(head: string, d: nat)
    requires 1 <= d < 6 && |head| == d
    ensures head + SEP[..|SEP| - d] != SEP
  {
    var w := head + SEP[..|SEP| - d];
    assert w[d] == SEP[0] == '/';
    assert SEP[d] != '/';
  }

  /**
   Parsing undoes building exactly for safe user names whose parts fit their buffers.  For any
   other user name it is not even refused when the buffers are large: it returns something else.
   */
  lemma RoundTripExact(user: Text, feed: Text, maxLen: nat)
    ensures Parse(Topic(user, feed), maxLen) == Ok(user, feed)
            <==> SafeUser(user) && |user| < maxLen && |feed| < maxLen
    ensures |Topic(user, feed)| < maxLen ==> Parse(Topic(user, feed), maxLen).Ok?
  {
    var s := Topic(user, feed);
    SepAtUser(user, feed);
    forall i: nat | i < |user|
      ensures OccursAt(s, i) <==> OccursAt(user, i) || (i == |user| - 6 && EndsIn(user, "/feeds"))
    {
      EarlierOccurrence(user, feed, i);
    }
    if SafeUser(user) {
      FirstSepUnique(s, |user|);
      assert s[..|user|] == user && s[|user| + |SEP|..] == feed;
    } else {
      var first := FirstSep(s);
      assert exists i: nat :: i < |user| && OccursAt(s, i) by {
        if EndsIn(user, "/feeds") {
          assert OccursAt(s, |user| - 6);
        } else {
          var i :| 0 <= i <= |user| && OccursAt(user, i);
          assert OccursAt(s, i);
        }
      }
      assert first.value < |user|;
      assert |s[..first.value]| < |user|;
    }
  }

  lemma SlashFirst(s: string, i: nat)
    ensures OccursAt(s, i) ==> s[i] == '/'
  {
    if OccursAt(s, i) { assert s[i..i + |SEP|][0] == '/'; }
  }

  /** A concrete user name on which the codec fails although it contains no separator. */
  lemma RoundTripFails()
    ensures Parse(Topic("a/feeds", "x"), 100) == Ok("a", "feeds/x")
  {
    var s := Topic("a/feeds", "x");
    assert s == "a/feeds/feeds/x";
    assert s[0] == 'a';
    assert s[1..8] == "/feeds/";
    SlashFirst(s, 0);
    FirstSepUnique(s, 1);
    assert s[8..] == "feeds/x" && s[..1] == "a";
  }

  /** Building restores any topic that parsed. */
  lemma ParseThenBuild(topic: Text, maxLen: nat)
    ensures match Parse(topic, maxLen)
            case Ok(user, feed) => '\0' !in user && '\0' !in feed && user + SEP + feed == topic
            case _ => true
  {
    match FirstSep(topic)
    case None =>
    case Some(i) => assert topic == topic[..i] + topic[i..i + |SEP|] + topic[i + |SEP|..];
  }
}
