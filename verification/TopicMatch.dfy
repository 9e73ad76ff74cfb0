/**
  Which filters the byte-scanning walk of topic/tree.go reaches for a topic, and how that relates to the
  level-by-level matching of MQTT 3.1.1 section 4.7.1.  A string is a sequence of bytes.
*/
module TopicMatch {
  import opened Common

  /** Position of the first '/', or |s|. */
  function Slash(s: string): (i: nat)
    ensures i <= |s| && '/' !in s[..i] && (i < |s| ==> s[i] == '/')
  {
    if s == [] || s[0] == '/' then 0 else 1 + Slash(s[1..])
  }

  /** strings.Split(s, "/"). */
  function Split(s: string): (fs: seq<string>)
    ensures fs != []
  {
    var i := Slash(s);
    if i == |s| then [s] else [s[..i]] + Split(s[i + 1..])
  }

  /** The levels with a '/' between any two. */
  function Joined(fs: seq<string>): string {
    if fs == [] then [] else if |fs| == 1 then fs[0] else fs[0] + ['/'] + Joined(fs[1..])
  }

  /** Splitting takes the string apart at every slash, and nowhere else. */
  lemma {:induction false} SplitExactly(s: string)
    ensures Joined(Split(s)) == s && forall k | 0 <= k < |Split(s)| :: '/' !in Split(s)[k]
  {
    var i := Slash(s);
    if i == |s| {
      assert s[..i] == s;
    } else {
      SplitExactly(s[i + 1..]);
      assert Split(s)[1..] == Split(s[i + 1..]);
      assert s == s[..i] + ['/'] + s[i + 1..];
    }
  }

  /** The filters `_getSessions` reaches on the rest of a topic; an empty rest reaches nothing. */
  predicate Matches(f: seq<string>, topic: string)
    decreases |topic|
  {
    && topic != [] && f != []
    && (f == ["#"] ||
        (var i := Slash(topic);
         && (f[0] == "+" || f[0] == topic[..i])
         && (if i == |topic| then |f| == 1 else Matches(f[1..], topic[i + 1..]))))
  }

  /** Level by level: '+' takes one level, a final '#' takes one or more. */
  predicate LevelMatch(f: seq<string>, ls: seq<string>) {
    && f != [] && ls != []
    && (f == ["#"] ||
        (&& (f[0] == "+" || f[0] == ls[0])
         && ((|f| == 1 && |ls| == 1) || LevelMatch(f[1..], ls[1..]))))
  }

  /** Section 4.7.1, where a final '#' also takes its parent level. */
  predicate StandardMatch(f: seq<string>, ls: seq<string>) {
    || f == ["#"]
    || (f == [] && ls == [])
    || (f != [] && ls != [] && (f[0] == "+" || f[0] == ls[0]) && StandardMatch(f[1..], ls[1..]))
  }

  predicate EndsInSlash(topic: string) {
    topic != [] && topic[|topic| - 1] == '/'
  }

  lemma {:induction false} WalkIsLevelMatch(f: seq<string>, topic: string)
    requires topic != [] && !EndsInSlash(topic)
    ensures Matches(f, topic) <==> LevelMatch(f, Split(topic))
    decreases |topic|
  {
    var i := Slash(topic);
    if f == [] {
    } else if i == |topic| {
      assert topic[..i] == topic;
    } else {
      var rest := topic[i + 1..];
      assert Split(topic)[1..] == Split(rest);
      assert rest != [] by { assert i != |topic| - 1; }
      assert rest[|rest| - 1] == topic[|topic| - 1];
      WalkIsLevelMatch(f[1..], rest);
    }
  }

  lemma {:induction false} SplitMatchesItself(topic: string)
    ensures LevelMatch(Split(topic), Split(topic))
    decreases |topic|
  {
    var i := Slash(topic);
    if i < |topic| {
      assert Split(topic)[1..] == Split(topic[i + 1..]);
      SplitMatchesItself(topic[i + 1..]);
    }
  }

  lemma {:induction false} TrailingSlashMisses(topic: string)
    requires topic == [] || EndsInSlash(topic)
    ensures !Matches(Split(topic), topic)
    decreases |topic|
  {
    var i := Slash(topic);
    if topic != [] {
      var rest := topic[i + 1..];
      assert Split(topic)[1..] == Split(rest);
      assert |Split(topic)| >= 2;
      assert rest == [] || rest[|rest| - 1] == topic[|topic| - 1];
      TrailingSlashMisses(rest);
    }
  }

  /** The walk agrees with level-by-level matching on every filter exactly for the topics that are not empty and do not end in '/'. */
  lemma WalkExactlyLevelMatch(topic: string)
    ensures (forall f :: Matches(f, topic) <==> LevelMatch(f, Split(topic))) <==> topic != [] && !EndsInSlash(topic)
  {
    if topic != [] && !EndsInSlash(topic) {
      forall f { WalkIsLevelMatch(f, topic); }
    } else {
      SplitMatchesItself(topic);
      TrailingSlashMisses(topic);
    }
  }

  /** Every match of the walk is a match of section 4.7.1, and what it misses is exactly a final '#' that stands for no level. */
  lemma {:induction false} LevelMatchIsStandard(f: seq<string>, ls: seq<string>)
    requires ls != [] && f != []
    ensures LevelMatch(f, ls) ==> StandardMatch(f, ls)
    ensures StandardMatch(f, ls) ==> (!LevelMatch(f, ls) <==> |f| == |ls| + 1 && f[|ls|] == "#")
  {
    if f != ["#"] && (f[0] == "+" || f[0] == ls[0]) {
      if |ls| > 1 && |f| > 1 {
        LevelMatchIsStandard(f[1..], ls[1..]);
      } else if |f| > 1 {
        assert ls[1..] == [] && f[1..][0] == f[1];
        assert !LevelMatch(f[1..], ls[1..]);
        assert StandardMatch(f[1..], ls[1..]) <==> f[1..] == ["#"];
      } else {
        assert f[1..] == [];
        assert !LevelMatch(f[1..], ls[1..]);
        assert StandardMatch([], ls[1..]) <==> ls[1..] == [];
      }
    }
  }

  /** "x/#" is such a filter for "x", whatever the level. */
  lemma ParentIsMissed(x: string)
    ensures StandardMatch([x, "#"], [x]) && !LevelMatch([x, "#"], [x])
  {
    assert [x, "#"][1..] == ["#"] && [x][1..] == [];
  }

  // ---------------------------------------------------------------- which filter decides the QoS

  function Rank(level: string): nat {
    if level == "#" then 0 else if level == "+" then 1 else 2
  }

  /** f comes before g: at the first level where they differ f has the lower rank in '#' < '+' < literal. */
  predicate Before(f: seq<string>, g: seq<string>) {
    f != [] && g != [] && (Rank(f[0]) < Rank(g[0]) || (f[0] == g[0] && Before(f[1..], g[1..])))
  }

  /** No level of the topic is "#". */
  predicate HashFree(topic: string)
    decreases |topic|
  {
    var i := Slash(topic);
    topic[..i] != "#" && (i < |topic| ==> HashFree(topic[i + 1..]))
  }

  /** Where two filters first differ, "#" is less specific than anything and "+" less specific than a name. */
  ghost predicate LessSpecificAt(f: seq<string>, g: seq<string>, k: int) {
    && 0 <= k < |f| && k < |g| && f[..k] == g[..k]
    && ((f[k] == "#" && g[k] != "#") || (f[k] == "+" && g[k] != "#" && g[k] != "+"))
  }

  lemma SameStart(f: seq<string>, g: seq<string>, k: nat)
    requires k < |f| && k < |g| && f[..k] == g[..k]
    ensures k > 0 ==> f[0] == g[0]
  {
    if k > 0 { assert f[0] == f[..k][0] == g[..k][0] == g[0]; }
  }

  lemma {:induction false} BeforeExactly(f: seq<string>, g: seq<string>)
    ensures Before(f, g) <==> exists k :: LessSpecificAt(f, g, k)
  {
    if f != [] && g != [] {
      BeforeExactly(f[1..], g[1..]);
      if f[0] == g[0] {
        if k :| LessSpecificAt(f[1..], g[1..], k) {
          assert f[..k + 1] == [f[0]] + f[1..][..k] && g[..k + 1] == [g[0]] + g[1..][..k];
          assert LessSpecificAt(f, g, k + 1);
        }
        if k :| LessSpecificAt(f, g, k) {
          assert f[1..][..k - 1] == f[..k][1..] && g[1..][..k - 1] == g[..k][1..];
          assert LessSpecificAt(f[1..], g[1..], k - 1);
        }
      } else {
        if k :| LessSpecificAt(f, g, k) { SameStart(f, g, k); }
        if Rank(f[0]) < Rank(g[0]) { assert LessSpecificAt(f, g, 0); }
      }
    }
  }

  lemma {:induction false} BeforeIsStrict(f: seq<string>, g: seq<string>)
    ensures !(Before(f, g) && Before(g, f))
  {
    if f != [] && g != [] { BeforeIsStrict(f[1..], g[1..]); }
  }

  /** Among filters that match one topic the order is total, so "the most specific one" is well defined. */
  lemma {:induction false} BeforeIsTotal(f: seq<string>, g: seq<string>, topic: string)
    requires Matches(f, topic) && Matches(g, topic) && HashFree(topic)
    ensures f == g || Before(f, g) || Before(g, f)
    decreases |topic|
  {
    var i := Slash(topic);
    if f[0] == g[0] && f != ["#"] && g != ["#"] && i < |topic| {
      BeforeIsTotal(f[1..], g[1..], topic[i + 1..]);
      assert f == [f[0]] + f[1..] && g == [g[0]] + g[1..];
    } else if i == |topic| {
      assert f == [f[0]] && g == [g[0]];
    }
  }
}
