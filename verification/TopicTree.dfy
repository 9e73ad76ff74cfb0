/**
  topic/tree.go: the subscription tree, a mutable tree of maps.  What it stores is `At(f)`, for every filter
  `f` (a list of levels) the sessions subscribed to it with their QoS; each method is specified by what it
  does to that flat table.
*/
module TopicTree {
  import opened Common
  import opened TopicMatch

  class Node<S(==, !new)> {
    var sessionsMap: map<S, Byte>
    var subsMap: map<string, Node<S>>
    ghost var Repr: set<object>

    /** The children are trees of their own, apart from each other and from this node. */
    ghost predicate Valid()
      reads this, Repr
      decreases Repr
    {
      && this in Repr
      && (forall k | k in subsMap ::
            && subsMap[k] in Repr && subsMap[k].Repr <= Repr && this !in subsMap[k].Repr
            && subsMap[k].Valid())
      && (forall j, k | j in subsMap && k in subsMap && j != k :: subsMap[j].Repr !! subsMap[k].Repr)
    }

    /** The sessions subscribed to the filter with these levels, below this node. */
    ghost function At(f: seq<string>): map<S, Byte>
      requires Valid()
      reads this, Repr
      decreases f
    {
      if f == [] then sessionsMap
      else if f[0] in subsMap then subsMap[f[0]].At(f[1..])
      else map[]
    }

    constructor ()
      ensures Valid() && fresh(Repr) && subsMap == map[] && sessionsMap == map[]
      ensures forall f :: At(f) == map[]
    {
      sessionsMap, subsMap := map[], map[];
      Repr := {this};
    }

    // -------------------------------------------------------------- adding

    /** insert: from level `cur` of the filter on, creating nodes where they are missing. */
    method Insert(fields: seq<string>, cur: nat, qos: Byte, session: S)
      requires Valid() && cur < |fields|
      modifies Repr
      ensures Valid() && fresh(Repr - old(Repr)) && sessionsMap == old(sessionsMap)
      ensures forall g :: At(g) == if g == fields[cur..] then old(At(g))[session := qos] else old(At(g))
      decreases |fields| - cur, 1
    {
      if fields[cur] !in subsMap { AddChild(fields[cur]); }
      if cur == |fields| - 1 {
        SetSession(fields[cur], qos, session);
        assert fields[cur..] == [fields[cur]];
      } else {
        InsertBelow(fields, cur, qos, session);
      }
    }

    /** The recursive case of insert: the next level's node exists. */
    method InsertBelow(fields: seq<string>, cur: nat, qos: Byte, session: S)
      requires Valid() && cur + 1 < |fields| && fields[cur] in subsMap
      modifies Repr
      ensures Valid() && fresh(Repr - old(Repr)) && sessionsMap == old(sessionsMap)
      ensures forall g :: At(g) == if g == fields[cur..] then old(At(g))[session := qos] else old(At(g))
      decreases |fields| - cur, 0
    {
      var name := fields[cur];
      var sub := subsMap[name];
      sub.Insert(fields, cur + 1, qos, session);
      Repr := Repr + sub.Repr;
      assert forall k | k in subsMap && k != name :: subsMap[k].Valid() && subsMap[k].Repr == old(subsMap[k].Repr);
      assert Valid();
      forall g
        ensures At(g) == if g == fields[cur..] then old(At(g))[session := qos] else old(At(g))
      {
        if g != [] && g[0] == name {
          assert fields[cur..] == [name] + fields[cur + 1..];
          assert g == [g[0]] + g[1..];
        }
      }
    }

    /** A new empty node below this one: nothing is subscribed there yet. */
    method AddChild(name: string)
      requires Valid() && name !in subsMap
      modifies this
      ensures Valid() && fresh(Repr - old(Repr)) && sessionsMap == old(sessionsMap)
      ensures name in subsMap && subsMap[name] !in old(Repr)
      ensures forall g :: At(g) == old(At(g))
    {
      var sub := new Node<S>();
      subsMap := subsMap[name := sub];
      Repr := Repr + sub.Repr;
    }

    /** The leaf case of insert. */
    method SetSession(name: string, qos: Byte, session: S)
      requires Valid() && name in subsMap
      modifies subsMap[name]
      ensures Valid()
      ensures forall g :: At(g) == if g == [name] then old(At(g))[session := qos] else old(At(g))
    {
      var sub := subsMap[name];
      sub.sessionsMap := sub.sessionsMap[session := qos];
      assert forall k | k in subsMap && k != name :: subsMap[k].Valid();
      assert forall k | k in sub.subsMap :: sub.subsMap[k].Valid();
      assert sub.Valid();
      assert Valid();
    }

    // -------------------------------------------------------------- removing

    /** remove with a session: forget that session at the end of this filter, if the path exists. */
    method Delete(fields: seq<string>, cur: nat, session: S)
      requires Valid() && cur < |fields|
      modifies Repr
      ensures Valid() && Repr == old(Repr) && sessionsMap == old(sessionsMap) && subsMap == old(subsMap)
      ensures forall g :: At(g) == if g == fields[cur..] then old(At(g)) - {session} else old(At(g))
      decreases |fields| - cur, 1
    {
      if fields[cur] !in subsMap {
        assert At(fields[cur..]) == map[];
        return;
      }
      if cur == |fields| - 1 {
        DropSession(fields[cur], session);
        assert fields[cur..] == [fields[cur]];
      } else {
        DeleteBelow(fields, cur, session);
      }
    }

    method DeleteBelow(fields: seq<string>, cur: nat, session: S)
      requires Valid() && cur + 1 < |fields| && fields[cur] in subsMap
      modifies Repr
      ensures Valid() && Repr == old(Repr) && sessionsMap == old(sessionsMap) && subsMap == old(subsMap)
      ensures forall g :: At(g) == if g == fields[cur..] then old(At(g)) - {session} else old(At(g))
      decreases |fields| - cur, 0
    {
      var name := fields[cur];
      var sub := subsMap[name];
      sub.Delete(fields, cur + 1, session);
      assert forall k | k in subsMap && k != name :: subsMap[k].Valid() && subsMap[k].Repr == old(subsMap[k].Repr);
      assert Valid();
      forall g
        ensures At(g) == if g == fields[cur..] then old(At(g)) - {session} else old(At(g))
      {
        if g != [] && g[0] == name {
          assert fields[cur..] == [name] + fields[cur + 1..];
          assert g == [g[0]] + g[1..];
        }
      }
    }

    /** The leaf case of remove. */
    method DropSession(name: string, session: S)
      requires Valid() && name in subsMap
      modifies subsMap[name]
      ensures Valid()
      ensures forall g :: At(g) == if g == [name] then old(At(g)) - {session} else old(At(g))
    {
      var sub := subsMap[name];
      sub.sessionsMap := sub.sessionsMap - {session};
      assert forall k | k in subsMap && k != name :: subsMap[k].Valid();
      assert forall k | k in sub.subsMap :: sub.subsMap[k].Valid();
      assert sub.Valid();
      assert Valid();
    }

    /** RemoveSession: forget the session at this node and at every node below it. */
    method RemoveSession(session: S)
      requires Valid()
      modifies Repr
      ensures Valid() && Repr == old(Repr) && subsMap == old(subsMap)
      ensures sessionsMap == old(sessionsMap) - {session}
      ensures forall g :: At(g) == old(At(g)) - {session}
      decreases Repr, 2
    {
      sessionsMap := sessionsMap - {session};
      RemoveBelow(session);
    }

    /** The loop of RemoveSession over the children, in whatever order the map yields them. */
    method RemoveBelow(session: S)
      requires Valid()
      modifies Repr - {this}
      ensures Valid()
      ensures forall g :: At(g) == if g == [] then sessionsMap else old(At(g)) - {session}
      decreases Repr, 1
    {
      var todo := subsMap.Keys;
      while todo != {}
        invariant todo <= subsMap.Keys
        invariant Valid()
        invariant forall k | k in subsMap :: subsMap[k].Repr == old(subsMap[k].Repr)
        invariant forall k, g | k in subsMap ::
                    subsMap[k].At(g) == if k in todo then old(subsMap[k].At(g)) else old(subsMap[k].At(g)) - {session}
        decreases todo
      {
        var k :| k in todo;
        RemoveFromChild(k, session);
        todo := todo - {k};
      }
    }

    method RemoveFromChild(name: string, session: S)
      requires Valid() && name in subsMap
      modifies subsMap[name].Repr
      ensures Valid()
      ensures forall k | k in subsMap :: subsMap[k].Repr == old(subsMap[k].Repr)
      ensures forall g :: subsMap[name].At(g) == old(subsMap[name].At(g)) - {session}
      ensures forall k, g | k in subsMap && k != name :: subsMap[k].At(g) == old(subsMap[k].At(g))
      decreases Repr, 0
    {
      var sub := subsMap[name];
      sub.RemoveSession(session);
      assert forall k | k in subsMap && k != name :: subsMap[k].Valid() && subsMap[k].Repr == old(subsMap[k].Repr);
      assert Valid();
    }

    // -------------------------------------------------------------- looking up

    /** Session s is subscribed to f, and the walk reaches f for this topic. */
    ghost predicate Hit(s: S, f: seq<string>, topic: string)
      requires Valid()
      reads this, Repr
    {
      Matches(f, topic) && s in At(f)
    }

    ghost predicate Found(s: S, topic: string)
      requires Valid()
      reads this, Repr
    {
      exists f :: Hit(s, f, topic)
    }

    /** f is the most specific filter of s for this topic. */
    ghost predicate Best(s: S, f: seq<string>, topic: string)
      requires Valid()
      reads this, Repr
    {
      Hit(s, f, topic) && forall g | Hit(s, g, topic) :: g == f || Before(g, f)
    }

    /** What a lookup may answer for s when the result map held `rm` before. */
    ghost predicate Answers(s: S, topic: string, rm: map<S, Byte>, r: map<S, Byte>)
      requires Valid()
      reads this, Repr
    {
      && (s in r <==> s in rm || Found(s, topic))
      && (s in rm && !Found(s, topic) ==> r[s] == rm[s])
      && (Found(s, topic) && HashFree(topic) ==> exists f :: Best(s, f, topic) && r[s] == At(f)[s])
    }

    /** The filters below the child `level` that the walk reaches for s. */
    ghost predicate Via(s: S, level: string, topic: string)
      requires Valid()
      reads this, Repr
    {
      var i := Slash(topic);
      level in subsMap && (if i == |topic| then s in subsMap[level].sessionsMap else subsMap[level].Found(s, topic[i + 1..]))
    }

    lemma HitAt(s: S, f: seq<string>, topic: string)
      requires Valid() && topic != []
      ensures var i := Slash(topic);
              Hit(s, f, topic) <==>
              f != [] && f[0] in subsMap &&
              ((f == ["#"] && s in subsMap["#"].sessionsMap)
               || ((f[0] == "+" || f[0] == topic[..i]) &&
                   if i == |topic| then |f| == 1 && s in subsMap[f[0]].sessionsMap
                   else subsMap[f[0]].Hit(s, f[1..], topic[i + 1..])))
    {
      if f != [] && f[0] in subsMap {
        assert At(f) == subsMap[f[0]].At(f[1..]);
        assert |f| == 1 ==> f[1..] == [] && f == [f[0]];
      }
    }

    lemma FoundVia(s: S, topic: string)
      requires Valid() && topic != []
      ensures Found(s, topic) <==>
              ("#" in subsMap && s in subsMap["#"].sessionsMap) || Via(s, "+", topic) || Via(s, topic[..Slash(topic)], topic)
    {
      var i := Slash(topic);
      if f :| Hit(s, f, topic) { HitAt(s, f, topic); }
      if "#" in subsMap && s in subsMap["#"].sessionsMap {
        HitAt(s, ["#"], topic);
        assert Hit(s, ["#"], topic);
      }
      ViaIsHit(s, "+", topic);
      ViaIsHit(s, topic[..i], topic);
    }

    lemma ViaIsHit(s: S, level: string, topic: string)
      requires Valid() && topic != [] && (level == "+" || level == topic[..Slash(topic)])
      ensures Via(s, level, topic) ==> Found(s, topic)
    {
      var i := Slash(topic);
      if Via(s, level, topic) {
        if i == |topic| {
          HitAt(s, [level], topic);
          assert Hit(s, [level], topic);
        } else {
          var f :| subsMap[level].Hit(s, f, topic[i + 1..]);
          HitAt(s, [level] + f, topic);
          assert ([level] + f)[1..] == f;
          assert Hit(s, [level] + f, topic);
        }
      }
    }

    /** Every other filter reached for s comes before one below the last child that knows s. */
    lemma OthersComeBefore(s: S, level: string, f: seq<string>, g: seq<string>, topic: string)
      requires Valid() && topic != [] && HashFree(topic) && level in subsMap
      requires level == topic[..Slash(topic)] || (level == "+" && !Via(s, topic[..Slash(topic)], topic))
      requires var i := Slash(topic);
               if i == |topic| then f == [] else subsMap[level].Best(s, f, topic[i + 1..])
      requires Hit(s, g, topic)
      ensures g == [level] + f || Before(g, [level] + f)
    {
      var i, b := Slash(topic), [level] + f;
      assert b[1..] == f;
      HitAt(s, g, topic);
      assert g[0] == topic[..i] ==> Via(s, topic[..i], topic);
      if g[0] == level {
        if i == |topic| {
          assert g == [level] == b;
        } else {
          assert subsMap[level].Hit(s, g[1..], topic[i + 1..]);
          assert g == [level] + g[1..];
        }
      }
    }

    /** The most specific filter for s lies below the last child visited that knows s. */
    lemma BestVia(s: S, level: string, f: seq<string>, topic: string)
      requires Valid() && topic != [] && HashFree(topic) && level in subsMap
      requires level == topic[..Slash(topic)] || (level == "+" && !Via(s, topic[..Slash(topic)], topic))
      requires var i := Slash(topic);
               if i == |topic| then f == [] && s in subsMap[level].sessionsMap else subsMap[level].Best(s, f, topic[i + 1..])
      ensures Best(s, [level] + f, topic) && At([level] + f)[s] == subsMap[level].At(f)[s]
    {
      assert ([level] + f)[1..] == f;
      HitAt(s, [level] + f, topic);
      assert At([level] + f) == subsMap[level].At(f);
      forall g | Hit(s, g, topic) ensures g == [level] + f || Before(g, [level] + f) {
        OthersComeBefore(s, level, f, g, topic);
      }
    }

    lemma BestHash(s: S, topic: string)
      requires Valid() && topic != [] && "#" in subsMap && s in subsMap["#"].sessionsMap
      requires !Via(s, "+", topic) && !Via(s, topic[..Slash(topic)], topic)
      ensures Best(s, ["#"], topic) && At(["#"])[s] == subsMap["#"].sessionsMap[s]
    {
      var i := Slash(topic);
      HitAt(s, ["#"], topic);
      assert At(["#"]) == subsMap["#"].At(["#"][1..]);
      forall g | Hit(s, g, topic) ensures g == ["#"] {
        HitAt(s, g, topic);
        if g != ["#"] {
          assert Via(s, g[0], topic);
        }
      }
    }

    /** What visiting one child does to the answer for s. */
    ghost predicate Visited(s: S, level: string, topic: string, rm: map<S, Byte>, r: map<S, Byte>)
      requires Valid() && topic != []
      reads this, Repr
    {
      var i := Slash(topic);
      if level !in subsMap then r == rm
      else if i == |topic| then r == rm + subsMap[level].sessionsMap
      else subsMap[level].Answers(s, topic[i + 1..], rm, r)
    }

    /** Visiting '#', '+' and the level itself one after the other answers for the whole node. */
    lemma Combine(s: S, topic: string, rm: map<S, Byte>, r1: map<S, Byte>, r2: map<S, Byte>, r3: map<S, Byte>)
      requires Valid() && topic != []
      requires r1 == if "#" in subsMap then rm + subsMap["#"].sessionsMap else rm
      requires Visited(s, "+", topic, r1, r2) && Visited(s, topic[..Slash(topic)], topic, r2, r3)
      ensures Answers(s, topic, rm, r3)
    {
      var i := Slash(topic);
      FoundVia(s, topic);
      if Found(s, topic) && HashFree(topic) {
        if Via(s, topic[..i], topic) {
          BestChild(s, topic[..i], topic, r2, r3);
        } else if Via(s, "+", topic) {
          BestChild(s, "+", topic, r1, r2);
        } else {
          BestHash(s, topic);
        }
      }
    }

    lemma BestChild(s: S, level: string, topic: string, rm: map<S, Byte>, r: map<S, Byte>)
      requires Valid() && topic != [] && HashFree(topic) && Via(s, level, topic) && Visited(s, level, topic, rm, r)
      requires level == topic[..Slash(topic)] || (level == "+" && !Via(s, topic[..Slash(topic)], topic))
      ensures s in r && exists f :: Best(s, f, topic) && r[s] == At(f)[s]
    {
      var i := Slash(topic);
      if i == |topic| {
        BestVia(s, level, [], topic);
        assert Best(s, [level] + [], topic);
      } else {
        var f :| subsMap[level].Best(s, f, topic[i + 1..]) && r[s] == subsMap[level].At(f)[s];
        BestVia(s, level, f, topic);
        assert Best(s, [level] + f, topic);
      }
    }

    /** The callback of getSessions: copy a node's sessions over what is there. */
    static function Merge(rm: map<S, Byte>, sm: map<S, Byte>): map<S, Byte> {
      rm + sm
    }

    /** One child of the walk, visited for a level it matches: a leaf is merged, an inner node is walked. */
    method Visit(level: string, leaf: bool, rest: string, rm: map<S, Byte>) returns (r: map<S, Byte>)
      requires Valid()
      ensures level !in subsMap ==> r == rm
      ensures level in subsMap && leaf ==> r == rm + subsMap[level].sessionsMap
      ensures level in subsMap && !leaf ==> forall s :: subsMap[level].Answers(s, rest, rm, r)
      decreases |rest|, 2
    {
      r := rm;
      if level in subsMap {
        if leaf {
          r := Merge(r, subsMap[level].sessionsMap);
        } else {
          r := subsMap[level].Walk(rest, r);
        }
      }
    }

    /** _getSessions: cut off the first level, then visit "#", "+" and the level itself, in this order. */
    method Walk(topic: string, rm: map<S, Byte>) returns (r: map<S, Byte>)
      requires Valid()
      ensures forall s :: Answers(s, topic, rm, r)
      decreases |topic|, 1
    {
      r := rm;
      if |topic| == 0 { return; }
      var i := 0;
      while i < |topic| && topic[i] != '/'
        invariant 0 <= i <= |topic| && '/' !in topic[..i]
      {
        i := i + 1;
      }
      assert i == Slash(topic);
      var leaf := i == |topic|;
      var field, rest := topic[..i], if leaf then "" else topic[i + 1..];
      if "#" in subsMap { r := Merge(r, subsMap["#"].sessionsMap); }
      ghost var r1 := r;
      r := Visit("+", leaf, rest, r);
      ghost var r2 := r;
      r := Visit(field, leaf, rest, r);
      forall s ensures Answers(s, topic, rm, r) {
        Combine(s, topic, rm, r1, r2, r);
      }
    }

    // -------------------------------------------------------------- the subscription manager's interface

    /** Add: one insert per filter; `qoss` is indexed like `subs`. */
    method Add(subs: seq<string>, qoss: seq<Byte>, session: S)
      requires Valid() && |subs| <= |qoss|
      modifies Repr
      ensures Valid() && fresh(Repr - old(Repr))
      ensures forall g :: At(g) == Added(old(At(g)), g, subs, qoss, session)
    {
      var i := 0;
      while i < |subs|
        invariant 0 <= i <= |subs| && Valid() && fresh(Repr - old(Repr))
        invariant forall g :: At(g) == Added(old(At(g)), g, subs[..i], qoss, session)
      {
        var fields := Split(subs[i]);
        Insert(fields, 0, qoss[i], session);
        assert fields[0..] == fields && subs[..i + 1][..i] == subs[..i];
        i := i + 1;
      }
      assert subs[..i] == subs;
    }

    /** Remove with a session given. */
    method RemoveFilter(filter: string, session: S)
      requires Valid()
      modifies Repr
      ensures Valid() && Repr == old(Repr)
      ensures forall g :: At(g) == if g == Split(filter) then old(At(g)) - {session} else old(At(g))
    {
      var fields := Split(filter);
      Delete(fields, 0, session);
      assert fields[0..] == fields;
    }

    method GetSessions(topic: string) returns (r: map<S, Byte>)
      requires Valid()
      ensures forall s :: Answers(s, topic, map[], r)
    {
      r := Walk(topic, map[]);
    }
  }

  // ---------------------------------------------------------------- the flat table the tree stands for

  /** One filter's sessions after Add has processed the list: the last QoS given for the filter wins. */
  function Added<S(==)>(m: map<S, Byte>, f: seq<string>, subs: seq<string>, qoss: seq<Byte>, session: S): map<S, Byte>
    requires |subs| <= |qoss|
  {
    if subs == [] then m
    else
      var n := |subs| - 1;
      var m' := Added(m, f, subs[..n], qoss, session);
      if f == Split(subs[n]) then m'[session := qoss[n]] else m'
  }

  datatype Op<S> =
    | AddOp(subs: seq<string>, qoss: seq<Byte>, session: S)
    | RemoveOp(filter: string, session: S)
    | RemoveSessionOp(session: S)

  ghost predicate Proper<S>(op: Op<S>) {
    op.AddOp? ==> |op.subs| <= |op.qoss|
  }

  ghost predicate AllProper<S>(ops: seq<Op<S>>) {
    forall k | 0 <= k < |ops| :: Proper(ops[k])
  }

  /** The sessions holding filter f, with their QoS, after this history of operations. */
  ghost function Held<S>(ops: seq<Op<S>>, f: seq<string>): map<S, Byte>
    requires AllProper(ops)
  {
    if ops == [] then map[]
    else
      var op, m := ops[|ops| - 1], Held(ops[..|ops| - 1], f);
      match op
      case AddOp(subs, qoss, session) => Added(m, f, subs, qoss, session)
      case RemoveOp(filter, session) => if f == Split(filter) then m - {session} else m
      case RemoveSessionOp(session) => m - {session}
  }

  ghost predicate Subscribes<S>(op: Op<S>, s: S, f: seq<string>) {
    op.AddOp? && op.session == s && exists j :: 0 <= j < |op.subs| && Split(op.subs[j]) == f
  }

  ghost predicate Cancels<S>(op: Op<S>, s: S, f: seq<string>) {
    || (op.RemoveOp? && op.session == s && Split(op.filter) == f)
    || (op.RemoveSessionOp? && op.session == s)
  }

  lemma {:induction false} AddedKeys<S>(m: map<S, Byte>, f: seq<string>, subs: seq<string>, qoss: seq<Byte>, session: S, s: S)
    requires |subs| <= |qoss|
    ensures s in Added(m, f, subs, qoss, session) <==> s in m || (s == session && exists j :: 0 <= j < |subs| && Split(subs[j]) == f)
  {
    if subs != [] {
      var n := |subs| - 1;
      AddedKeys(m, f, subs[..n], qoss, session, s);
      if j :| 0 <= j < n && Split(subs[..n][j]) == f { assert Split(subs[j]) == f; }
      if j :| 0 <= j < |subs| && Split(subs[j]) == f { assert j < n ==> Split(subs[..n][j]) == f; }
    }
  }

  /** A session holds a filter exactly when some operation subscribed it and no later one cancelled it. */
  lemma {:induction false} HeldSinceSubscribed<S>(ops: seq<Op<S>>, f: seq<string>, s: S)
    requires AllProper(ops)
    ensures s in Held(ops, f) <==>
            exists k :: 0 <= k < |ops| && Subscribes(ops[k], s, f) && forall j | k < j < |ops| :: !Cancels(ops[j], s, f)
  {
    if ops != [] {
      var n := |ops| - 1;
      var ops0, op := ops[..n], ops[n];
      assert forall k | 0 <= k < n :: ops0[k] == ops[k];
      assert AllProper(ops0) && Proper(op);
      HeldSinceSubscribed(ops0, f, s);
      if op.AddOp? { AddedKeys(Held(ops0, f), f, op.subs, op.qoss, op.session, s); }
    }
  }

  /** subs[j] is the last entry of the list that names f. */
  ghost predicate LastNamed(subs: seq<string>, f: seq<string>, j: int) {
    0 <= j < |subs| && Split(subs[j]) == f && forall i | j < i < |subs| :: Split(subs[i]) != f
  }

  /** The k-th operation is the last word on s and f, and asks for this QoS in its j-th entry. */
  ghost predicate AskedAt<S>(ops: seq<Op<S>>, s: S, f: seq<string>, q: Byte, k: int, j: int) {
    && 0 <= k < |ops| && Proper(ops[k]) && ops[k].AddOp? && ops[k].session == s
    && LastNamed(ops[k].subs, f, j) && ops[k].qoss[j] == q
    && forall i | k < i < |ops| :: !Subscribes(ops[i], s, f) && !Cancels(ops[i], s, f)
  }

  ghost predicate Asked<S>(ops: seq<Op<S>>, s: S, f: seq<string>, q: Byte) {
    exists k, j :: AskedAt(ops, s, f, q, k, j)
  }

  lemma {:induction false} AddedQos<S>(m: map<S, Byte>, f: seq<string>, subs: seq<string>, qoss: seq<Byte>, session: S, j: int)
    requires |subs| <= |qoss| && LastNamed(subs, f, j)
    ensures session in Added(m, f, subs, qoss, session) && Added(m, f, subs, qoss, session)[session] == qoss[j]
  {
    if j < |subs| - 1 {
      assert LastNamed(subs[..|subs| - 1], f, j);
      AddedQos(m, f, subs[..|subs| - 1], qoss, session, j);
    }
  }

  lemma {:induction false} AddedOther<S>(m: map<S, Byte>, f: seq<string>, subs: seq<string>, qoss: seq<Byte>, session: S, s: S)
    requires |subs| <= |qoss| && s in m
    requires s != session || forall j | 0 <= j < |subs| :: Split(subs[j]) != f
    ensures s in Added(m, f, subs, qoss, session) && Added(m, f, subs, qoss, session)[s] == m[s]
  {
    if subs != [] {
      var n := |subs| - 1;
      assert forall j | 0 <= j < n :: subs[..n][j] == subs[j];
      AddedOther(m, f, subs[..n], qoss, session, s);
    }
  }

  lemma {:induction false} LastOf(subs: seq<string>, f: seq<string>, i: nat) returns (j: int)
    requires i < |subs| && Split(subs[i]) == f
    ensures LastNamed(subs, f, j)
    decreases |subs| - i
  {
    if k :| i < k < |subs| && Split(subs[k]) == f { j := LastOf(subs, f, k); } else { j := i; }
  }

  /** A subscription asked for earlier is still the last word when the last operation says nothing about it. */
  lemma AskedStays<S>(ops: seq<Op<S>>, s: S, f: seq<string>, q: Byte)
    requires ops != [] && !Subscribes(ops[|ops| - 1], s, f) && !Cancels(ops[|ops| - 1], s, f)
    ensures Asked(ops[..|ops| - 1], s, f, q) ==> Asked(ops, s, f, q)
  {
    var ops0 := ops[..|ops| - 1];
    if k, j :| AskedAt(ops0, s, f, q, k, j) {
      assert forall i | k < i < |ops| - 1 :: ops0[i] == ops[i];
      assert AskedAt(ops, s, f, q, k, j);
    }
  }

  /** The QoS held for a filter is the one asked for last. */
  lemma {:induction false} HeldIsAsked<S>(ops: seq<Op<S>>, f: seq<string>, s: S)
    requires AllProper(ops) && s in Held(ops, f)
    ensures Asked(ops, s, f, Held(ops, f)[s])
  {
    var n := |ops| - 1;
    var ops0, op := ops[..n], ops[n];
    assert forall k | 0 <= k < n :: ops0[k] == ops[k];
    assert AllProper(ops0) && Proper(op);
    if Subscribes(op, s, f) {
      var i :| 0 <= i < |op.subs| && Split(op.subs[i]) == f;
      var j := LastOf(op.subs, f, i);
      AddedQos(Held(ops0, f), f, op.subs, op.qoss, s, j);
      assert AskedAt(ops, s, f, op.qoss[j], n, j);
    } else {
      if op.AddOp? {
        AddedKeys(Held(ops0, f), f, op.subs, op.qoss, op.session, s);
        AddedOther(Held(ops0, f), f, op.subs, op.qoss, op.session, s);
      }
      HeldIsAsked(ops0, f, s);
      AskedStays(ops, s, f, Held(ops, f)[s]);
    }
  }

  /** There is only one last word. */
  lemma AskedOnce<S>(ops: seq<Op<S>>, s: S, f: seq<string>, q: Byte, p: Byte)
    requires Asked(ops, s, f, q) && Asked(ops, s, f, p)
    ensures q == p
  {
    var k, j :| AskedAt(ops, s, f, q, k, j);
    var l, i :| AskedAt(ops, s, f, p, l, i);
    assert Subscribes(ops[k], s, f) && Subscribes(ops[l], s, f);
  }

  /** Asked for and not cancelled since, so held with that QoS, and the reverse: the flat table in terms of the operations. */
  lemma HeldExactlyAsAsked<S>(ops: seq<Op<S>>, f: seq<string>, s: S, q: Byte)
    requires AllProper(ops)
    ensures Asked(ops, s, f, q) <==> s in Held(ops, f) && Held(ops, f)[s] == q
  {
    HeldSinceSubscribed(ops, f, s);
    if Asked(ops, s, f, q) {
      var k, j :| AskedAt(ops, s, f, q, k, j);
      assert Subscribes(ops[k], s, f);
      HeldIsAsked(ops, f, s);
      AskedOnce(ops, s, f, q, Held(ops, f)[s]);
    } else if s in Held(ops, f) {
      HeldIsAsked(ops, f, s);
    }
  }

  /** Any history of operations leaves a tree that stores exactly the flat table. */
  method Replay<S(==, !new)>(ops: seq<Op<S>>) returns (root: Node<S>)
    requires AllProper(ops)
    ensures fresh(root) && root.Valid() && fresh(root.Repr)
    ensures forall f :: root.At(f) == Held(ops, f)
  {
    root := new Node<S>();
    var i := 0;
    while i < |ops|
      invariant 0 <= i <= |ops| && fresh(root) && root.Valid() && fresh(root.Repr) && AllProper(ops[..i])
      invariant forall f :: root.At(f) == Held(ops[..i], f)
    {
      assert Proper(ops[i]);
      match ops[i] {
        case AddOp(subs, qoss, session) => root.Add(subs, qoss, session);
        case RemoveOp(filter, session) => root.RemoveFilter(filter, session);
        case RemoveSessionOp(session) => root.RemoveSession(session);
      }
      assert ops[..i + 1][..i] == ops[..i] && ops[..i + 1][i] == ops[i];
      i := i + 1;
    }
    assert ops[..i] == ops;
  }

  /** Some operation subscribed s to a matching filter, and no later one cancelled it. */
  ghost predicate Subscribed<S>(ops: seq<Op<S>>, s: S, f: seq<string>, topic: string) {
    Matches(f, topic) && exists k :: 0 <= k < |ops| && Subscribes(ops[k], s, f) && forall j | k < j < |ops| :: !Cancels(ops[j], s, f)
  }

  lemma SubscribedIsHeld<S>(ops: seq<Op<S>>, s: S, f: seq<string>, topic: string)
    requires AllProper(ops)
    ensures Subscribed(ops, s, f, topic) <==> Matches(f, topic) && s in Held(ops, f)
  {
    HeldSinceSubscribed(ops, f, s);
  }

  ghost predicate HeldHit<S>(ops: seq<Op<S>>, s: S, f: seq<string>, topic: string)
    requires AllProper(ops)
  {
    Matches(f, topic) && s in Held(ops, f)
  }

  /** Lookup after any history, in terms of the flat table. */
  method SessionsHeld<S(==, !new)>(ops: seq<Op<S>>, topic: string) returns (r: map<S, Byte>)
    requires AllProper(ops)
    ensures forall s :: s in r <==> exists f :: HeldHit(ops, s, f, topic)
    ensures HashFree(topic) ==> forall s | s in r ::
              exists f :: HeldHit(ops, s, f, topic) && r[s] == Held(ops, f)[s]
                          && forall g | HeldHit(ops, s, g, topic) :: g == f || Before(g, f)
  {
    var root := Replay(ops);
    r := root.GetSessions(topic);
    assert forall s, f :: root.Hit(s, f, topic) <==> HeldHit(ops, s, f, topic);
    forall s ensures s in r <==> exists f :: HeldHit(ops, s, f, topic) {
      assert root.Answers(s, topic, map[], r);
    }
    if HashFree(topic) {
      forall s | s in r
        ensures exists f :: HeldHit(ops, s, f, topic) && r[s] == Held(ops, f)[s]
                            && forall g | HeldHit(ops, s, g, topic) :: g == f || Before(g, f)
      {
        assert root.Answers(s, topic, map[], r);
        var f :| root.Best(s, f, topic) && r[s] == root.At(f)[s];
        assert HeldHit(ops, s, f, topic);
      }
    }
  }

  /** One session's answer, in terms of the operations. */
  lemma HeldToAsked<S>(ops: seq<Op<S>>, s: S, f: seq<string>, topic: string)
    requires AllProper(ops) && HeldHit(ops, s, f, topic) && forall g | HeldHit(ops, s, g, topic) :: g == f || Before(g, f)
    ensures Subscribed(ops, s, f, topic) && Asked(ops, s, f, Held(ops, f)[s])
    ensures forall g | Subscribed(ops, s, g, topic) :: g == f || Before(g, f)
  {
    HeldIsAsked(ops, f, s);
    forall g { SubscribedIsHeld(ops, s, g, topic); }
    assert forall g | Subscribed(ops, s, g, topic) :: HeldHit(ops, s, g, topic);
  }

  /**
    Lookup after any history, in terms of the operations: exactly the sessions with a subscription that matches and was
    not cancelled, each with the QoS last asked for with the most specific one (for topics without a "#" level).
  */
  method SessionsAfter<S(==, !new)>(ops: seq<Op<S>>, topic: string) returns (r: map<S, Byte>)
    requires AllProper(ops)
    ensures forall s :: s in r <==> exists f :: Subscribed(ops, s, f, topic)
    ensures HashFree(topic) ==> forall s | s in r ::
              exists f :: Subscribed(ops, s, f, topic) && Asked(ops, s, f, r[s])
                          && forall g | Subscribed(ops, s, g, topic) :: g == f || Before(g, f)
  {
    r := SessionsHeld(ops, topic);
    forall s ensures s in r <==> exists f :: Subscribed(ops, s, f, topic) {
      forall f { SubscribedIsHeld(ops, s, f, topic); }
      assert forall f :: HeldHit(ops, s, f, topic) <==> Subscribed(ops, s, f, topic);
    }
    if HashFree(topic) {
      forall s | s in r
        ensures exists f :: Subscribed(ops, s, f, topic) && Asked(ops, s, f, r[s])
                            && forall g | Subscribed(ops, s, g, topic) :: g == f || Before(g, f)
      {
        var f :| HeldHit(ops, s, f, topic) && r[s] == Held(ops, f)[s] && forall g | HeldHit(ops, s, g, topic) :: g == f || Before(g, f);
        HeldToAsked(ops, s, f, topic);
      }
    }
  }
}
