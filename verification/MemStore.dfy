/**
  store/mem-provider/mem-store.go: two indexes over one set of messages, and the InflightStore contract of
  store/store.go they are meant to implement, a map from (clientId, msgId) to message.
*/
module MemStore {
  import opened Common

  datatype Msg = Msg(id: int, clientId: string, msgId: Id, topic: string, qos: nat, body: seq<Byte>)

  datatype Error = ErrDupMsg | ErrNoExsit

  datatype Store = Store(indexId: map<int, Msg>, indexKey: map<string, Msg>)

  const Empty := Store(map[], map[])

  // ---------------------------------------------------------------- the key

  function Digit(d: nat): char
    requires d < 10
  {
    "0123456789"[d]
  }

  /** The decimal numeral of n, as %d prints it. */
  function Decimal(n: nat): (s: string)
    ensures s != []
  {
    if n < 10 then [Digit(n)] else Decimal(n / 10) + [Digit(n % 10)]
  }

  /** ClientIdMsgIdAsKey: the client id and the numeral, with nothing in between. */
  function Key(clientId: string, msgId: Id): string {
    clientId + Decimal(msgId)
  }

  function KeyOf(m: Msg): string {
    Key(m.clientId, m.msgId)
  }

  lemma DigitInjective(a: nat, b: nat)
    requires a < 10 && b < 10 && Digit(a) == Digit(b)
    ensures a == b
  {
  }

  lemma {:induction false} DecimalInjective(a: nat, b: nat)
    requires Decimal(a) == Decimal(b)
    ensures a == b
  {
    var s, t := Decimal(a), Decimal(b);
    assert s[|s| - 1] == Digit(a % 10) && t[|t| - 1] == Digit(b % 10);
    DigitInjective(a % 10, b % 10);
    if a >= 10 {
      assert |s| >= 2;
      assert b >= 10;
      assert s[..|s| - 1] == Decimal(a / 10) && t[..|t| - 1] == Decimal(b / 10);
      DecimalInjective(a / 10, b / 10);
    }
  }

  predicate IsDigit(c: char) {
    '0' <= c <= '9'
  }

  lemma {:induction false} DecimalDigits(n: nat)
    ensures forall k | 0 <= k < |Decimal(n)| :: IsDigit(Decimal(n)[k])
  {
    if n >= 10 { DecimalDigits(n / 10); }
  }

  /** Client ids of equal length make the concatenated key injective. */
  lemma KeyInjectiveOnLength(c1: string, m1: Id, c2: string, m2: Id)
    requires |c1| == |c2| && Key(c1, m1) == Key(c2, m2)
    ensures c1 == c2 && m1 == m2
  {
    assert Key(c1, m1)[..|c1|] == c1 && Key(c2, m2)[..|c2|] == c2;
    assert Key(c1, m1)[|c1|..] == Decimal(m1) && Key(c2, m2)[|c2|..] == Decimal(m2);
    DecimalInjective(m1, m2);
  }

  lemma LongerClientDiffers(c1: string, m1: Id, c2: string, m2: Id)
    requires |c1| < |c2| && !IsDigit(c2[|c2| - 1])
    ensures Key(c1, m1) != Key(c2, m2)
  {
    var k := |c2| - 1;
    DecimalDigits(m1);
    assert Key(c2, m2)[k] == c2[k];
    if k < |Key(c1, m1)| {
      assert Key(c1, m1)[k] == Decimal(m1)[k - |c1|];
    }
  }

  /** So do client ids that do not end in a digit. */
  lemma KeyInjectiveWithoutTrailingDigit(c1: string, m1: Id, c2: string, m2: Id)
    requires c1 != [] && !IsDigit(c1[|c1| - 1]) && c2 != [] && !IsDigit(c2[|c2| - 1])
    ensures Key(c1, m1) == Key(c2, m2) <==> c1 == c2 && m1 == m2
  {
    if |c1| < |c2| {
      LongerClientDiffers(c1, m1, c2, m2);
    } else if |c2| < |c1| {
      LongerClientDiffers(c2, m2, c1, m1);
    } else if Key(c1, m1) == Key(c2, m2) {
      KeyInjectiveOnLength(c1, m1, c2, m2);
    }
  }

  /** In general it is not: client "a1" message 1 and client "a" message 11 share their key. */
  lemma KeysCollide()
    ensures Key("a1", 1) == Key("a", 11) && "a1" != "a"
  {
    assert Decimal(11) == Decimal(1) + [Digit(1)];
    assert Key("a1", 1) == "a1" + "1";
    assert Key("a", 11) == "a" + "11";
  }

  /** `long` is `short` with a numeral behind it that leaves room for one more digit of a message id. */
  ghost predicate Extends(long: string, short: string) {
    exists v: nat :: 1 <= v <= 6553 && long == short + Decimal(v)
  }

  /** Two clients some message of one of which has the key of some message of the other. */
  ghost predicate Confusable(c1: string, c2: string) {
    Extends(c1, c2) || Extends(c2, c1)
  }

  /** The first digits of a numeral are a numeral without the last digits. */
  lemma {:induction false} PrefixIsNumeral(n: nat, k: nat) returns (v: nat)
    requires 0 < k < |Decimal(n)|
    ensures 1 <= v <= n / 10 && Decimal(n)[..k] == Decimal(v)
  {
    var d := Decimal(n / 10);
    assert Decimal(n) == d + [Digit(n % 10)];
    if k == |d| {
      v := n / 10;
    } else {
      v := PrefixIsNumeral(n / 10, k);
      assert Decimal(n)[..k] == d[..k];
    }
  }

  lemma SharedKeyExtends(c1: string, m1: Id, c2: string, m2: Id)
    requires |c1| < |c2| && Key(c1, m1) == Key(c2, m2)
    ensures Extends(c2, c1)
  {
    var key, k := Key(c1, m1), |c2| - |c1|;
    assert key[..|c2|] == c2 && key[..|c1|] == c1;
    assert key[|c1|..] == Decimal(m1) && key[|c2|..] == Decimal(m2);
    assert |Decimal(m1)| == k + |Decimal(m2)|;
    var v := PrefixIsNumeral(m1, k);
    assert Decimal(m1)[..k] == key[|c1|..|c2|];
    assert c2 == c1 + Decimal(v);
  }

  lemma ExtendsSharesKey(long: string, short: string) returns (m: Id)
    requires Extends(long, short)
    ensures Key(long, 0) == Key(short, m)
  {
    var v: nat :| 1 <= v <= 6553 && long == short + Decimal(v);
    m := 10 * v;
    assert Decimal(m) == Decimal(v) + [Digit(0)] && Decimal(0) == [Digit(0)];
    Associate(short, Decimal(v), [Digit(0)]);
  }

  /** Exactly such clients can share a key. */
  lemma KeysCollideExactly(c1: string, c2: string)
    requires c1 != c2
    ensures (exists m1: Id, m2: Id :: Key(c1, m1) == Key(c2, m2)) <==> Confusable(c1, c2)
  {
    if m1: Id, m2: Id :| Key(c1, m1) == Key(c2, m2) {
      if |c1| < |c2| { SharedKeyExtends(c1, m1, c2, m2); }
      else if |c2| < |c1| { SharedKeyExtends(c2, m2, c1, m1); }
      else { KeyInjectiveOnLength(c1, m1, c2, m2); }
    }
    if Extends(c1, c2) {
      var m := ExtendsSharesKey(c1, c2);
      assert Key(c1, 0) == Key(c2, m);
    }
    if Extends(c2, c1) {
      var m := ExtendsSharesKey(c2, c1);
      assert Key(c1, m) == Key(c2, 0);
    }
  }

  /** Clients that are not confusable never share a key, and one client never does for two messages. */
  lemma SameKeySamePair(c1: string, m1: Id, c2: string, m2: Id)
    requires !Confusable(c1, c2) && Key(c1, m1) == Key(c2, m2)
    ensures c1 == c2 && m1 == m2
  {
    if c1 != c2 { KeysCollideExactly(c1, c2); }
    KeyInjectiveOnLength(c1, m1, c2, m2);
  }

  // ---------------------------------------------------------------- the operations

  function Save(s: Store, m: Msg): (r: (Store, Option<Error>)) {
    var key := KeyOf(m);
    if key in s.indexKey then (s, Some(ErrDupMsg))
    else
      var m' := m.(id := |s.indexId|);
      (Store(s.indexId[m'.id := m'], s.indexKey[key := m']), None)
  }

  function Get(s: Store, clientId: string, msgId: Id): Option<Msg> {
    var key := Key(clientId, msgId);
    if key in s.indexKey then Some(s.indexKey[key]) else None
  }

  function Remove(s: Store, id: int): (r: (Store, Option<Error>)) {
    if id in s.indexId then
      (Store(s.indexId - {id}, s.indexKey - {KeyOf(s.indexId[id])}), None)
    else (s, Some(ErrNoExsit))
  }

  // ---------------------------------------------------------------- the indexes agree

  /** The two indexes are inverse to each other: each message is in both, under its own id and key. */
  ghost predicate Agree(s: Store) {
    && (forall k | k in s.indexKey :: var m := s.indexKey[k]; KeyOf(m) == k && m.id in s.indexId && s.indexId[m.id] == m)
    && (forall i | i in s.indexId :: var m := s.indexId[i]; m.id == i && KeyOf(m) in s.indexKey && s.indexKey[KeyOf(m)] == m)
  }

  /** Save keeps the indexes in agreement exactly when the key is taken already or the next id is free. */
  lemma SaveAgreesExactly(s: Store, m: Msg)
    requires Agree(s)
    ensures Agree(Save(s, m).0) <==> KeyOf(m) in s.indexKey || |s.indexId| !in s.indexId
  {
    var s' := Save(s, m).0;
    if KeyOf(m) !in s.indexKey && |s.indexId| in s.indexId {
      var m0 := s.indexId[|s.indexId|];
      assert s'.indexKey[KeyOf(m0)] == m0 && m0.id == |s.indexId|;
      assert s'.indexId[m0.id] != m0;
    }
  }

  /** RemoveMsgById keeps the agreement and takes away exactly the message stored under that id; without one it is an error. */
  lemma RemoveAgrees(s: Store, id: int)
    requires Agree(s)
    ensures id !in s.indexId ==> Remove(s, id) == (s, Some(ErrNoExsit))
    ensures id in s.indexId ==>
              var (s', err) := Remove(s, id);
              && Agree(s') && err == None
              && s'.indexId == s.indexId - {id}
              && s'.indexKey == s.indexKey - {KeyOf(s.indexId[id])}
              && (forall k | k in s.indexKey && s.indexKey[k].id != id :: k in s'.indexKey && s'.indexKey[k] == s.indexKey[k])
  {
  }

  /** With a gap in the ids the next Save reuses a live id, and removing by that id then hits the wrong message. */
  lemma ReusedIdLosesAMessage(a: Msg, b: Msg, c: Msg)
    requires KeyOf(a) != KeyOf(b) && KeyOf(a) != KeyOf(c) && KeyOf(b) != KeyOf(c)
    ensures var s2 := Save(Save(Empty, a).0, b).0;
            var s4 := Save(Remove(s2, 0).0, c).0;
            var bId := Get(s2, b.clientId, b.msgId).value.id;
            var s5 := Remove(s4, bId).0;
            && Get(s2, b.clientId, b.msgId).Some? && !Agree(s4)
            && Get(s5, b.clientId, b.msgId).Some? && Get(s5, c.clientId, c.msgId).None?
  {
    var s1 := Save(Empty, a).0;
    var s2 := Save(s1, b).0;
    SaveAgreesExactly(Empty, a);
    assert s1.indexId == map[0 := a.(id := 0)];
    SaveAgreesExactly(s1, b);
    RemoveAgrees(s2, 0);
    OnlyB(b, Remove(s2, 0).0, c);
  }

  lemma OnlyB(b: Msg, s: Store, c: Msg)
    requires s == Store(map[1 := b.(id := 1)], map[KeyOf(b) := b.(id := 1)]) && KeyOf(b) != KeyOf(c) && Agree(s)
    ensures var s' := Save(s, c).0;
            var s'' := Remove(s', 1).0;
            && !Agree(s') && Get(s'', b.clientId, b.msgId).Some? && Get(s'', c.clientId, c.msgId).None?
  {
    SaveAgreesExactly(s, c);
  }

  // ---------------------------------------------------------------- runs

  datatype Op = SaveOp(m: Msg) | RemoveOp(id: int)

  function Apply(s: Store, op: Op): Store {
    match op
    case SaveOp(m) => Save(s, m).0
    case RemoveOp(id) => Remove(s, id).0
  }

  function Run(ops: seq<Op>): Store {
    if ops == [] then Empty else Apply(Run(ops[..|ops| - 1]), ops[|ops| - 1])
  }

  /** At each save of a new key the id len(indexId) was free. */
  ghost predicate IdsFree(ops: seq<Op>) {
    ops == [] ||
    (IdsFree(ops[..|ops| - 1]) &&
     var s, op := Run(ops[..|ops| - 1]), ops[|ops| - 1];
     op.SaveOp? ==> KeyOf(op.m) in s.indexKey || |s.indexId| !in s.indexId)
  }

  lemma {:induction false} RunAgrees(ops: seq<Op>)
    requires IdsFree(ops)
    ensures Agree(Run(ops))
  {
    if ops != [] {
      var s, op := Run(ops[..|ops| - 1]), ops[|ops| - 1];
      RunAgrees(ops[..|ops| - 1]);
      match op
      case SaveOp(m) => SaveAgreesExactly(s, m);
      case RemoveOp(id) => if id in s.indexId { RemoveAgrees(s, id); }
    }
  }

  /** Last in, first out: only the newest message is ever removed. */
  ghost predicate LastInFirstOut(ops: seq<Op>) {
    ops == [] ||
    (LastInFirstOut(ops[..|ops| - 1]) &&
     (ops[|ops| - 1].RemoveOp? ==> ops[|ops| - 1].id == |Run(ops[..|ops| - 1]).indexId| - 1))
  }

  ghost predicate Dense(s: Store) {
    forall i :: i in s.indexId <==> 0 <= i < |s.indexId|
  }

  lemma OneMore(ids: map<int, Msg>, m: Msg)
    requires forall i :: i in ids <==> 0 <= i < |ids|
    ensures |ids[|ids| := m]| == |ids| + 1
  {
    assert ids[|ids| := m].Keys == ids.Keys + {|ids|};
    assert |ids.Keys + {|ids|}| == |ids.Keys| + 1;
  }

  lemma SaveDense(s: Store, m: Msg)
    requires Dense(s)
    ensures Dense(Save(s, m).0)
  {
    if KeyOf(m) !in s.indexKey {
      OneMore(s.indexId, m.(id := |s.indexId|));
    }
  }

  lemma RemoveNewestDense(s: Store)
    requires Dense(s)
    ensures Dense(Remove(s, |s.indexId| - 1).0)
  {
    var id := |s.indexId| - 1;
    if id in s.indexId {
      assert (s.indexId - {id}).Keys == s.indexId.Keys - {id};
      assert |s.indexId - {id}| == |s.indexId| - 1;
    }
  }

  /** In such a run the id of every save is free, so the indexes agree throughout. */
  lemma {:induction false} LifoRunAgrees(ops: seq<Op>)
    requires LastInFirstOut(ops)
    ensures IdsFree(ops) && Dense(Run(ops)) && Agree(Run(ops))
  {
    if ops != [] {
      var s, op := Run(ops[..|ops| - 1]), ops[|ops| - 1];
      LifoRunAgrees(ops[..|ops| - 1]);
      match op {
        case SaveOp(m) => SaveDense(s, m);
        case RemoveOp(id) => RemoveNewestDense(s);
      }
      assert IdsFree(ops);
      RunAgrees(ops);
    }
  }

  // ---------------------------------------------------------------- the InflightStore contract

  /** No client with a message in the store is confusable with this one. */
  ghost predicate Separate(s: Store, clientId: string) {
    forall k | k in s.indexKey :: !Confusable(s.indexKey[k].clientId, clientId)
  }

  ghost predicate Holds(s: Store, clientId: string, msgId: Id, m: Msg) {
    KeyOf(m) in s.indexKey && s.indexKey[KeyOf(m)] == m && m.clientId == clientId && m.msgId == msgId
  }

  lemma StoredUnderPair(s: Store, clientId: string, msgId: Id)
    requires Agree(s) && Separate(s, clientId) && Key(clientId, msgId) in s.indexKey
    ensures var g := s.indexKey[Key(clientId, msgId)]; g.clientId == clientId && g.msgId == msgId
  {
    var g := s.indexKey[Key(clientId, msgId)];
    SameKeySamePair(g.clientId, g.msgId, clientId, msgId);
  }

  /**
    The contract: Get finds exactly the message stored for the pair; Save refuses a stored pair and otherwise
    adds the message for its pair and for no other; RemoveMsgById with the id Get reported removes that pair
    and no other.
  */
  lemma MeetsContract(s: Store, m: Msg, clientId: string, msgId: Id)
    requires Agree(s) && Separate(s, m.clientId) && Separate(s, clientId) && !Confusable(m.clientId, clientId)
    requires |s.indexId| !in s.indexId
    ensures forall g :: Get(s, clientId, msgId) == Some(g) <==> Holds(s, clientId, msgId, g)
    ensures Save(s, m).1 == (if Get(s, m.clientId, m.msgId).Some? then Some(ErrDupMsg) else None)
    ensures Save(s, m).1 == None ==>
              Get(Save(s, m).0, clientId, msgId)
              == if clientId == m.clientId && msgId == m.msgId then Some(m.(id := |s.indexId|)) else Get(s, clientId, msgId)
    ensures Get(s, m.clientId, m.msgId).Some? ==>
              Get(Remove(s, Get(s, m.clientId, m.msgId).value.id).0, clientId, msgId)
              == if clientId == m.clientId && msgId == m.msgId then None else Get(s, clientId, msgId)
  {
    var key, keyM := Key(clientId, msgId), KeyOf(m);
    if key == keyM { SameKeySamePair(m.clientId, m.msgId, clientId, msgId); }
    if key in s.indexKey { StoredUnderPair(s, clientId, msgId); }
    if keyM in s.indexKey {
      var g := s.indexKey[keyM];
      assert KeyOf(g) == keyM && s.indexId[g.id] == g;
    }
  }

  /** Two clients are kept apart, whatever is saved for one and asked for the other, exactly when they are not confusable. */
  lemma SeparatesExactly(c1: string, c2: string)
    requires c1 != c2
    ensures (forall m: Msg, msgId: Id | m.clientId == c1 :: Get(Save(Empty, m).0, c2, msgId) == None) <==> !Confusable(c1, c2)
  {
    KeysCollideExactly(c1, c2);
    if m1: Id, m2: Id :| Key(c1, m1) == Key(c2, m2) {
      assert Get(Save(Empty, Msg(0, c1, m1, "", 2, [])).0, c2, m2) != None;
    }
  }

  // ---------------------------------------------------------------- the store as the program keeps it

  lemma KeyFor<K, V>(m: map<K, V>, v: V) returns (k: K)
    requires v in m.Values
    ensures k in m && m[k] == v
  {
    k :| k in m && m[k] == v;
  }

  class MsgObject {
    var id: int
    const clientId: string
    const msgId: Id
    const topic: string
    const qos: nat
    const body: seq<Byte>

    constructor (clientId: string, msgId: Id, topic: string, qos: nat, body: seq<Byte>)
      ensures Value() == Msg(0, clientId, msgId, topic, qos, body)
    {
      id, this.clientId, this.msgId, this.topic, this.qos, this.body := 0, clientId, msgId, topic, qos, body;
    }

    ghost function Value(): Msg
      reads this
    {
      Msg(id, clientId, msgId, topic, qos, body)
    }
  }

  class MemoryStore {
    var indexId: map<int, MsgObject>
    var indexClientIdMsgId: map<string, MsgObject>

    ghost function View(): Store
      reads this, indexId.Values, indexClientIdMsgId.Values
    {
      Store(map i | i in indexId :: indexId[i].Value(), map k | k in indexClientIdMsgId :: indexClientIdMsgId[k].Value())
    }

    constructor ()
      ensures View() == Empty
    {
      indexId, indexClientIdMsgId := map[], map[];
      new;
      assert View().indexId == map[] && View().indexKey == map[];
    }

    /** The object is in neither map. */
    ghost predicate Foreign(msg: MsgObject)
      reads this
    {
      msg !in indexId.Values && msg !in indexClientIdMsgId.Values
    }

    /** The first map's update: the message under its new id. */
    method IndexById(msg: MsgObject)
      modifies this`indexId, msg`id
      ensures indexId == old(indexId)[|old(indexId)| := msg] && msg.id == |old(indexId)|
      ensures msg.Value() == old(msg.Value()).(id := |old(indexId)|)
      ensures old(Foreign(msg)) ==> View() == Store(old(View()).indexId[msg.id := msg.Value()], old(View()).indexKey)
    {
      ghost var before := View();
      msg.id := |indexId|;
      indexId := indexId[msg.id := msg];
      if old(Foreign(msg)) {
        assert View().indexId == before.indexId[msg.id := msg.Value()];
        assert View().indexKey == before.indexKey;
      }
    }

    /** The second map's update. */
    method IndexByKey(msg: MsgObject, key: string)
      modifies this`indexClientIdMsgId
      ensures indexClientIdMsgId == old(indexClientIdMsgId)[key := msg]
      ensures View() == Store(old(View()).indexId, old(View()).indexKey[key := msg.Value()])
    {
      ghost var before := View();
      indexClientIdMsgId := indexClientIdMsgId[key := msg];
      assert View().indexKey == before.indexKey[key := msg.Value()];
    }

    lemma SameSize()
      ensures |View().indexId| == |indexId|
      ensures forall key :: key in View().indexKey <==> key in indexClientIdMsgId
    {
      assert View().indexId.Keys == indexId.Keys;
      assert |View().indexId| == |View().indexId.Keys| == |indexId.Keys|;
    }

    /** While the indexes agree, an object in one of the maps has its key in the second. */
    lemma StoredIsForeignOrKeyed(msg: MsgObject)
      requires Agree(View())
      ensures Foreign(msg) || Key(msg.clientId, msg.msgId) in indexClientIdMsgId
    {
      SameSize();
      if msg in indexId.Values {
        var i := KeyFor(indexId, msg);
        assert i in View().indexId && View().indexId[i] == msg.Value();
        assert KeyOf(msg.Value()) in View().indexKey;
      } else if msg in indexClientIdMsgId.Values {
        var k := KeyFor(indexClientIdMsgId, msg);
        assert k in View().indexKey && View().indexKey[k] == msg.Value();
        assert KeyOf(msg.Value()) == k;
      }
    }

    /**
      The object gets its id and goes into both maps.  Unless the indexes have come apart already and the object is in one
      of them, that is the operation on values.
    */
    method SaveByClientIdMsgId(msg: MsgObject) returns (err: Option<Error>)
      modifies this, msg`id
      ensures var key := Key(msg.clientId, msg.msgId);
              if key in old(indexClientIdMsgId) then
                err == Some(ErrDupMsg) && indexId == old(indexId) && indexClientIdMsgId == old(indexClientIdMsgId) && msg.id == old(msg.id)
              else
                && err == None && msg.id == |old(indexId)|
                && indexId == old(indexId)[msg.id := msg] && indexClientIdMsgId == old(indexClientIdMsgId)[key := msg]
      ensures old(Foreign(msg)) || Agree(old(View())) ==> (View(), err) == Save(old(View()), old(msg.Value()))
    {
      var key := Key(msg.clientId, msg.msgId);
      SameSize();
      if Agree(View()) { StoredIsForeignOrKeyed(msg); }
      if key in indexClientIdMsgId { return Some(ErrDupMsg); }
      IndexById(msg);
      IndexByKey(msg, key);
      err := None;
    }

    method GetMsgByClientIdMsgId(clientId: string, msgId: Id) returns (msg: Option<MsgObject>)
      ensures (if msg.Some? then Some(msg.value.Value()) else None) == Get(View(), clientId, msgId)
    {
      var key := Key(clientId, msgId);
      msg := if key in indexClientIdMsgId then Some(indexClientIdMsgId[key]) else None;
      assert key in View().indexKey <==> key in indexClientIdMsgId;
      assert msg.Some? ==> View().indexKey[key] == msg.value.Value();
    }

    method RemoveMsgById(id: int) returns (err: Option<Error>)
      modifies this
      ensures (View(), err) == Remove(old(View()), id)
    {
      if id !in indexId { return Some(ErrNoExsit); }
      var msg := indexId[id];
      ghost var before := View();
      assert before.indexId[id] == msg.Value() && KeyOf(msg.Value()) == Key(msg.clientId, msg.msgId);
      indexId := indexId - {id};
      indexClientIdMsgId := indexClientIdMsgId - {Key(msg.clientId, msg.msgId)};
      assert View().indexId == before.indexId - {id};
      assert View().indexKey == before.indexKey - {KeyOf(msg.Value())};
      err := None;
    }
  }
}
