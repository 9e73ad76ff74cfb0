/**
  The UTF-8 coder bundled in www/libs/mqtt.js.  A JavaScript string is a sequence of 16-bit code units.
  Shifts and masks of non-negative numbers are written as division, remainder and sum: `x >> 6` is `x / 64`,
  `x & 0x3F` is `x % 64`, and `a | b` is `a + b` where a and b have no bit in common.
*/
module Utf8 {
  import opened Common

  type CodeUnit = u: int | 0 <= u < 0x10000

  type JsString = seq<CodeUnit>

  predicate IsSurrogate(u: int) {
    0xD7FF < u < 0xE000
  }

  predicate IsLead(u: int) {
    0xD800 <= u < 0xDC00
  }

  predicate IsTrail(u: int) {
    0xDC00 <= u < 0xE000
  }

  /** Every lead surrogate is followed by a trail, and every trail follows a lead. */
  predicate WellFormed(s: JsString) {
    s == []
    || (!IsSurrogate(s[0]) && WellFormed(s[1..]))
    || (IsLead(s[0]) && |s| >= 2 && IsTrail(s[1]) && WellFormed(s[2..]))
  }

  // ---------------------------------------------------------------- encoding

  const REPLACEMENT: seq<Byte> := [0xEF, 0xBF, 0xBD]

  /** The bytes of one code point. */
  function Bytes(cp: nat): (b: seq<Byte>)
    requires cp < 0x110000
    ensures 1 <= |b| <= 4
  {
    if cp < 0x80 then [cp]
    else if cp < 0x800 then [cp / 64 + 0xC0, cp % 64 + 0x80]
    else if cp < 0x10000 then [cp / 4096 + 0xE0, cp / 64 % 64 + 0x80, cp % 64 + 0x80]
    else [cp / 262144 + 0xF0, cp / 4096 % 64 + 0x80, cp / 64 % 64 + 0x80, cp % 64 + 0x80]
  }

  function Combined(lead: CodeUnit, trail: CodeUnit): (cp: nat)
    requires IsLead(lead) && IsTrail(trail)
    ensures 0x10000 <= cp < 0x110000
  {
    (lead - 0xD800) * 1024 + (trail - 0xDC00) + 0x10000
  }

  /** What utf8ToBytes produces for the rest of a string when it holds a lead surrogate back, or none. */
  function EncodeFrom(s: JsString, lead: Option<CodeUnit>): seq<Byte>
    requires lead.Some? ==> IsLead(lead.value)
  {
    if s == [] then []
    else
      var u, rest := s[0], s[1..];
      if IsSurrogate(u) then
        if lead.None? then
          if u > 0xDBFF || rest == [] then REPLACEMENT + EncodeFrom(rest, None)
          else EncodeFrom(rest, Some(u))
        else if u < 0xDC00 then REPLACEMENT + EncodeFrom(rest, Some(u))
        else Bytes(Combined(lead.value, u)) + EncodeFrom(rest, None)
      else (if lead.Some? then REPLACEMENT else []) + (Bytes(u) + EncodeFrom(rest, None))
  }

  function Encode(s: JsString): seq<Byte> {
    EncodeFrom(s, None)
  }

  /** How one code unit is handled: what is held back afterwards, and the bytes it gives, replacement first. */
  datatype Handled = Handled(lead: Option<CodeUnit>, replaced: bool, out: seq<Byte>)

  function Handle(u: CodeUnit, last: bool, lead: Option<CodeUnit>): (h: Handled)
    requires lead.Some? ==> IsLead(lead.value)
    ensures h.lead.Some? ==> IsLead(h.lead.value)
  {
    if IsSurrogate(u) then
      if lead.None? then
        if u > 0xDBFF || last then Handled(None, true, []) else Handled(Some(u), false, [])
      else if u < 0xDC00 then Handled(Some(u), true, [])
      else Handled(None, false, Bytes(Combined(lead.value, u)))
    else Handled(None, lead.Some?, Bytes(u))
  }

  function Produced(h: Handled): seq<Byte> {
    (if h.replaced then REPLACEMENT else []) + h.out
  }

  lemma ProducedThen(h: Handled, rest: seq<Byte>)
    ensures Produced(h) + rest == (if h.replaced then REPLACEMENT else []) + (h.out + rest)
    ensures h.out == [] ==> Produced(h) + rest == (if h.replaced then REPLACEMENT else []) + rest
    ensures !h.replaced ==> Produced(h) + rest == h.out + rest
  {
  }

  lemma EncodeOne(s: JsString, i: nat, lead: Option<CodeUnit>)
    requires i < |s| && (lead.Some? ==> IsLead(lead.value))
    ensures var h := Handle(s[i], i + 1 == |s|, lead);
            EncodeFrom(s[i..], lead) == Produced(h) + EncodeFrom(s[i + 1..], h.lead)
  {
    var h, t := Handle(s[i], i + 1 == |s|, lead), s[i..];
    assert t[1..] == s[i + 1..] && t[0] == s[i];
    ProducedThen(h, EncodeFrom(t[1..], h.lead));
    if h.out == [] && !h.replaced {
      assert [] + EncodeFrom(t[1..], h.lead) == EncodeFrom(t[1..], h.lead);
    }
  }

  /** What is produced so far, and what the rest of the string gives. */
  ghost predicate OnCourse(s: JsString, i: nat, lead: Option<CodeUnit>, bytes: seq<Byte>)
    requires i <= |s| && (lead.Some? ==> IsLead(lead.value))
  {
    bytes + EncodeFrom(s[i..], lead) == Encode(s)
  }

  lemma StaysOnCourse(s: JsString, i: nat, lead: Option<CodeUnit>, bytes: seq<Byte>)
    requires i < |s| && (lead.Some? ==> IsLead(lead.value)) && OnCourse(s, i, lead, bytes)
    ensures var h := Handle(s[i], i + 1 == |s|, lead);
            && OnCourse(s, i + 1, h.lead, bytes + Produced(h))
            && |bytes| + |Produced(h)| <= |Encode(s)|
  {
    var h := Handle(s[i], i + 1 == |s|, lead);
    EncodeOne(s, i, lead);
    assert bytes + (Produced(h) + EncodeFrom(s[i + 1..], h.lead)) == (bytes + Produced(h)) + EncodeFrom(s[i + 1..], h.lead);
  }

  /** Part of what a code unit gives fits: the whole result so far is still a beginning of the encoding. */
  lemma PartFits(s: JsString, i: nat, lead: Option<CodeUnit>, bytes: seq<Byte>, part: seq<Byte>)
    requires i < |s| && (lead.Some? ==> IsLead(lead.value)) && OnCourse(s, i, lead, bytes)
    requires part <= Produced(Handle(s[i], i + 1 == |s|, lead))
    ensures bytes + part <= Encode(s)
  {
    var h := Handle(s[i], i + 1 == |s|, lead);
    EncodeOne(s, i, lead);
    var all := Encode(s);
    assert all == bytes + (Produced(h) + EncodeFrom(s[i + 1..], h.lead));
    assert all[..|bytes|] == bytes && all[|bytes|..] == Produced(h) + EncodeFrom(s[i + 1..], h.lead);
    assert all[|bytes|..][..|part|] == part;
  }

  /**
    The bytes pushed for one code unit while `left` units remain; None is no bound.  A replacement that does not fit is
    skipped and the units counted all the same, so nothing fits from then on.
  */
  method Push(bytes: seq<Byte>, h: Handled, left: Option<int>) returns (pushed: seq<Byte>, rest: Option<int>, stop: bool, ghost part: seq<Byte>)
    requires |h.out| <= 4
    ensures rest.Some? <==> left.Some?
    ensures pushed == bytes + part && part <= Produced(h)
    ensures left.None? || left.value >= |Produced(h)| ==>
              !stop && part == Produced(h) && (left.Some? ==> rest.value == left.value - |Produced(h)|)
    ensures left.Some? && 0 <= left.value < |Produced(h)| ==> rest.value < 0 && 0 <= left.value - |part| <= 3
    ensures left.Some? && left.value < 0 ==> part == [] && rest.value < 0
  {
    pushed, rest, stop, part := bytes, left, false, [];
    if h.replaced {
      if rest.Some? { rest := Some(rest.value - 3); }
      if rest.None? || rest.value > -1 {
        pushed := pushed + REPLACEMENT;
        part := REPLACEMENT;
      }
    }
    if h.out != [] {
      if rest.Some? {
        rest := Some(rest.value - |h.out|);
        if rest.value < 0 { stop := true; return; }
      }
      pushed := pushed + h.out;
      part := part + h.out;
    }
  }

  /** The encoding, or with a bound as much of its beginning as fits: at most three bytes of room are left. */
  ghost predicate AsMuchAsFits(s: JsString, bound: int, bytes: seq<Byte>) {
    bytes <= Encode(s) && |bytes| <= bound && (bytes == Encode(s) || bound - |bytes| <= 3)
  }

  /** After i code units: on course with what is left of the bound, or full. */
  ghost predicate OnCourseOrFull(s: JsString, i: nat, lead: Option<CodeUnit>, bytes: seq<Byte>, bound: Option<int>, left: Option<int>)
    requires i <= |s| && (lead.Some? ==> IsLead(lead.value)) && (bound.Some? <==> left.Some?)
  {
    if left.None? then OnCourse(s, i, lead, bytes)
    else if left.value >= 0 then OnCourse(s, i, lead, bytes) && left.value == bound.value - |bytes|
    else bytes <= Encode(s) && 0 <= bound.value - |bytes| <= 3 && bound.value < |Encode(s)|
  }

  lemma PushKeeps(s: JsString, i: nat, lead: Option<CodeUnit>, bytes: seq<Byte>, bound: Option<int>, left: Option<int>, part: seq<Byte>, rest: Option<int>)
    requires i < |s| && (lead.Some? ==> IsLead(lead.value)) && (bound.Some? <==> left.Some?) && (left.Some? <==> rest.Some?)
    requires OnCourseOrFull(s, i, lead, bytes, bound, left)
    requires var h := Handle(s[i], i + 1 == |s|, lead);
             && part <= Produced(h)
             && (left.None? || left.value >= |Produced(h)| ==> part == Produced(h) && (left.Some? ==> rest.value == left.value - |Produced(h)|))
             && (left.Some? && 0 <= left.value < |Produced(h)| ==> rest.value < 0 && 0 <= left.value - |part| <= 3)
             && (left.Some? && left.value < 0 ==> part == [] && rest.value < 0)
    ensures OnCourseOrFull(s, i + 1, Handle(s[i], i + 1 == |s|, lead).lead, bytes + part, bound, rest)
  {
    assert bytes + [] == bytes;
    if left.None? || left.value >= 0 {
      StaysOnCourse(s, i, lead, bytes);
      PartFits(s, i, lead, bytes, part);
    }
  }

  /**
    utf8ToBytes.  `units` bounds the number of bytes produced; None is no bound, and so is 0, which
    `units || Infinity` turns into Infinity.
  */
  method Utf8ToBytes(s: JsString, units: Option<nat>) returns (bytes: seq<Byte>)
    ensures units.None? || units.value == 0 || units.value >= |Encode(s)| ==> bytes == Encode(s)
    ensures units.Some? && units.value > 0 ==> AsMuchAsFits(s, units.value, bytes)
  {
    var left: Option<int> := if units.Some? && units.value != 0 then Some(units.value) else None;
    ghost var bound := left;
    var lead: Option<CodeUnit> := None;
    bytes := [];
    assert s[0..] == s && [] + Encode(s) == Encode(s);
    var i := 0;
    while i < |s|
      invariant 0 <= i <= |s| && (lead.Some? ==> IsLead(lead.value)) && (left.Some? <==> bound.Some?)
      invariant OnCourseOrFull(s, i, lead, bytes, bound, left)
    {
      var h := Handle(s[i], i + 1 == |s|, lead);
      ghost var before, room := bytes, left;
      ghost var part;
      var stop: bool;
      bytes, left, stop, part := Push(bytes, h, left);
      PushKeeps(s, i, lead, before, bound, room, part, left);
      if stop { break; }
      lead := h.lead;
      i := i + 1;
    }
    assert s[|s|..] == [] && bytes + [] == bytes;
  }

  // ---------------------------------------------------------------- decoding

  predicate IsContinuation(b: int) {
    0x80 <= b < 0xC0
  }

  /**
    One code point off the front of b: its value and length, or U+FFFD and one byte when it is ill-formed.
    The masks take the marker bits off: `b & 0x3F` of a continuation byte is `b - 0x80`, and the masks of a
    lead byte in 0xC0.., 0xE0.. and 0xF0.. are subtractions likewise.
  */
  function DecodeStep(b: seq<Byte>): (r: (nat, nat))
    requires b != []
    ensures r.0 < 0x110000 && !IsSurrogate(r.0) && 1 <= r.1 <= |b|
  {
    var n := if b[0] > 0xEF then 4 else if b[0] > 0xDF then 3 else if b[0] > 0xBF then 2 else 1;
    if n > |b| then (0xFFFD, 1)
    else if n == 1 then
      if b[0] < 0x80 then (b[0] as int, 1) else (0xFFFD, 1)
    else if n == 2 && IsContinuation(b[1]) then
      var cp: nat := (b[0] as int - 0xC0) * 64 + (b[1] as int - 0x80);
      if cp > 0x7F then (cp, 2) else (0xFFFD, 1)
    else if n == 3 && IsContinuation(b[1]) && IsContinuation(b[2]) then
      var cp: nat := (b[0] as int - 0xE0) * 4096 + (b[1] as int - 0x80) * 64 + (b[2] as int - 0x80);
      if cp > 0x7FF && (cp < 0xD800 || cp > 0xDFFF) then (cp, 3) else (0xFFFD, 1)
    else if n == 4 && IsContinuation(b[1]) && IsContinuation(b[2]) && IsContinuation(b[3]) then
      var cp: nat := (b[0] as int - 0xF0) * 262144 + (b[1] as int - 0x80) * 4096 + (b[2] as int - 0x80) * 64 + (b[3] as int - 0x80);
      if cp > 0xFFFF && cp < 0x110000 then (cp, 4) else (0xFFFD, 1)
    else (0xFFFD, 1)
  }

  /** A code point as UTF-16: above 0xFFFF it becomes a surrogate pair. */
  function Units(cp: nat): (u: JsString)
    requires cp < 0x110000
  {
    if cp > 0xFFFF then
      var c := cp - 0x10000;
      [c / 1024 % 1024 + 0xD800, c % 1024 + 0xDC00]
    else [cp]
  }

  function Decode(b: seq<Byte>): JsString {
    if b == [] then []
    else
      var (cp, n) := DecodeStep(b);
      Units(cp) + Decode(b[n..])
  }

  /** The bytes from position i up to stop. */
  function Window(buf: seq<Byte>, i: nat, stop: nat): seq<Byte>
    requires stop <= |buf|
  {
    if i < stop then buf[i..stop] else []
  }

  lemma DecodeUnfold(b: seq<Byte>)
    requires b != []
    ensures Decode(b) == Units(DecodeStep(b).0) + Decode(b[DecodeStep(b).1..])
  {
  }

  /** The body of utf8Slice's loop: the code units of the sequence at i, and its length. */
  method NextUnits(buf: seq<Byte>, stop: nat, i: nat) returns (u: JsString, n: nat)
    requires i < stop <= |buf|
    ensures 1 <= n <= stop - i && Decode(Window(buf, i, stop)) == u + Decode(Window(buf, i + n, stop))
  {
    var b := Window(buf, i, stop);
    var cp: nat;
    cp, n := DecodeStep(b).0, DecodeStep(b).1;
    u := Units(cp);
    DecodeUnfold(b);
    assert b[n..] == Window(buf, i + n, stop);
  }

  /** utf8Slice. */
  method Utf8Slice(buf: seq<Byte>, start: nat, end: nat) returns (res: JsString)
    ensures res == Decode(Window(buf, start, Min(|buf|, end)))
  {
    var stop := Min(|buf|, end);
    var codes: JsString := [];
    var i := start;
    ghost var goal := Decode(Window(buf, start, stop));
    ghost var rest := goal;
    assert codes + rest == goal;
    while i < stop
      invariant start <= i && rest == Decode(Window(buf, i, stop))
      invariant codes + rest == goal
    {
      var u, n := NextUnits(buf, stop, i);
      ghost var tail := Decode(Window(buf, i + n, stop));
      Associate(codes, u, tail);
      codes := codes + u;
      rest := tail;
      i := i + n;
    }
    assert codes + [] == codes;
    res := DecodeCodePointsArray(codes);
  }

  function Min(a: nat, b: nat): nat {
    if a < b then a else b
  }

  const MAX_ARGUMENTS_LENGTH := 0x1000

  /** decodeCodePointsArray: joining the code units piece by piece loses nothing. */
  method DecodeCodePointsArray(codes: JsString) returns (res: JsString)
    ensures res == codes
  {
    if |codes| <= MAX_ARGUMENTS_LENGTH { return codes; }
    res := [];
    var i := 0;
    while i < |codes|
      invariant 0 <= i && res == codes[..Min(i, |codes|)]
    {
      var j := Min(i + MAX_ARGUMENTS_LENGTH, |codes|);
      assert codes[..i] + codes[i..j] == codes[..j];
      res := res + codes[i..j];
      i := i + MAX_ARGUMENTS_LENGTH;
    }
  }

  // ---------------------------------------------------------------- round trip

  lemma SixBitGroups(cp: nat)
    ensures cp == cp / 64 * 64 + cp % 64
    ensures cp / 64 == cp / 4096 * 64 + cp / 64 % 64
    ensures cp / 4096 == cp / 262144 * 64 + cp / 4096 % 64
  {
  }

  lemma StepInverts2(cp: nat, rest: seq<Byte>)
    requires 0x80 <= cp < 0x800
    ensures DecodeStep(Bytes(cp) + rest) == (cp, 2)
  {
    var b := Bytes(cp) + rest;
    assert b[0] == cp / 64 + 0xC0 && b[1] == cp % 64 + 0x80;
    SixBitGroups(cp);
  }

  lemma StepInverts3(cp: nat, rest: seq<Byte>)
    requires 0x800 <= cp < 0x10000 && !IsSurrogate(cp)
    ensures DecodeStep(Bytes(cp) + rest) == (cp, 3)
  {
    var b := Bytes(cp) + rest;
    assert b[0] == cp / 4096 + 0xE0 && b[1] == cp / 64 % 64 + 0x80 && b[2] == cp % 64 + 0x80;
    SixBitGroups(cp);
  }

  lemma StepInverts4(cp: nat, rest: seq<Byte>)
    requires 0x10000 <= cp < 0x110000
    ensures DecodeStep(Bytes(cp) + rest) == (cp, 4)
  {
    var b := Bytes(cp) + rest;
    assert b[0] == cp / 262144 + 0xF0 && b[1] == cp / 4096 % 64 + 0x80;
    assert b[2] == cp / 64 % 64 + 0x80 && b[3] == cp % 64 + 0x80;
    SixBitGroups(cp);
  }

  /** Decoding the bytes of a code point gives it back, whatever follows. */
  lemma StepInverts(cp: nat, rest: seq<Byte>)
    requires cp < 0x110000 && !IsSurrogate(cp)
    ensures DecodeStep(Bytes(cp) + rest) == (cp, |Bytes(cp)|)
  {
    if cp >= 0x10000 { StepInverts4(cp, rest); }
    else if cp >= 0x800 { StepInverts3(cp, rest); }
    else if cp >= 0x80 { StepInverts2(cp, rest); }
  }

  lemma DecodePrepends(cp: nat, rest: seq<Byte>)
    requires cp < 0x110000 && !IsSurrogate(cp)
    ensures Decode(Bytes(cp) + rest) == Units(cp) + Decode(rest)
  {
    StepInverts(cp, rest);
    assert (Bytes(cp) + rest)[|Bytes(cp)|..] == rest;
  }

  lemma PairInverts(lead: CodeUnit, trail: CodeUnit)
    requires IsLead(lead) && IsTrail(trail)
    ensures Units(Combined(lead, trail)) == [lead, trail]
  {
    var c := Combined(lead, trail) - 0x10000;
    assert c / 1024 == lead - 0xD800 && c % 1024 == trail - 0xDC00;
  }

  /** Decoding never yields an unpaired surrogate. */
  lemma {:induction false} DecodeWellFormed(b: seq<Byte>)
    ensures WellFormed(Decode(b))
  {
    if b != [] {
      var (cp, n) := DecodeStep(b);
      DecodeWellFormed(b[n..]);
      var r := Units(cp) + Decode(b[n..]);
      if cp > 0xFFFF {
        assert r[2..] == Decode(b[n..]) && IsLead(r[0]) && IsTrail(r[1]);
      } else {
        assert r[1..] == Decode(b[n..]) && r[0] == cp;
      }
    }
  }

  lemma {:induction false} WellFormedRoundTrip(s: JsString)
    requires WellFormed(s)
    ensures Decode(Encode(s)) == s
  {
    if s != [] {
      if !IsSurrogate(s[0]) {
        WellFormedRoundTrip(s[1..]);
        assert [] + (Bytes(s[0]) + Encode(s[1..])) == Bytes(s[0]) + Encode(s[1..]);
        DecodePrepends(s[0], Encode(s[1..]));
        assert s == [s[0]] + s[1..];
      } else {
        WellFormedRoundTrip(s[2..]);
        var cp := Combined(s[0], s[1]);
        assert s[1..][1..] == s[2..];
        assert Encode(s) == EncodeFrom(s[1..], Some(s[0])) == Bytes(cp) + Encode(s[2..]);
        DecodePrepends(cp, Encode(s[2..]));
        PairInverts(s[0], s[1]);
        assert s == [s[0], s[1]] + s[2..];
      }
    }
  }

  /** The round trip holds for exactly the strings whose surrogates are properly paired. */
  lemma {:induction false} RoundTripExactly(s: JsString)
    ensures Decode(Encode(s)) == s <==> WellFormed(s)
  {
    DecodeWellFormed(Encode(s));
    if WellFormed(s) { WellFormedRoundTrip(s); }
  }

  /** What is left of a string: an unpaired surrogate becomes U+FFFD, but a lead that ends the string behind another one is lost. */
  function Repaired(s: JsString): (r: JsString) {
    if s == [] then []
    else if !IsSurrogate(s[0]) then [s[0]] + Repaired(s[1..])
    else if IsLead(s[0]) && |s| >= 2 && IsTrail(s[1]) then [s[0], s[1]] + Repaired(s[2..])
    else if IsLead(s[0]) && |s| == 2 && IsLead(s[1]) then [0xFFFD]
    else [0xFFFD] + Repaired(s[1..])
  }

  lemma HeldBack(s: JsString, lead: CodeUnit)
    requires s != [] && IsLead(lead)
    ensures EncodeFrom(s, Some(lead)) == Encode([lead] + s)
  {
    assert ([lead] + s)[1..] == s;
  }

  /** An unpaired surrogate in front is encoded as U+FFFD, and then the rest. */
  lemma UnpairedHead(s: JsString)
    requires s != [] && IsSurrogate(s[0]) && !(IsLead(s[0]) && |s| >= 2 && IsTrail(s[1])) && !(IsLead(s[0]) && |s| == 2 && IsLead(s[1]))
    ensures Encode(s) == Bytes(0xFFFD) + Encode(s[1..])
  {
    var u, t := s[0], s[1..];
    assert Bytes(0xFFFD) == REPLACEMENT;
    if t == [] || !IsLead(u) {
      assert Encode(s) == REPLACEMENT + EncodeFrom(t, None);
    } else if IsLead(t[0]) {
      HeldBack(t[1..], t[0]);
      assert [t[0]] + t[1..] == t;
      assert Encode(s) == EncodeFrom(t, Some(u)) == REPLACEMENT + EncodeFrom(t[1..], Some(t[0]));
    } else {
      assert Encode(s) == EncodeFrom(t, Some(u)) == REPLACEMENT + (Bytes(t[0]) + Encode(t[1..]));
      assert [] + (Bytes(t[0]) + Encode(t[1..])) == Bytes(t[0]) + Encode(t[1..]);
    }
  }

  /** Decoding what was encoded gives back the repaired string, whatever the string was. */
  lemma {:induction false} EncodeRepairs(s: JsString)
    ensures Decode(Encode(s)) == Repaired(s)
    decreases |s|
  {
    if s != [] {
      if !IsSurrogate(s[0]) {
        EncodeRepairs(s[1..]);
        assert [] + (Bytes(s[0]) + Encode(s[1..])) == Bytes(s[0]) + Encode(s[1..]);
        DecodePrepends(s[0], Encode(s[1..]));
      } else if IsLead(s[0]) && |s| >= 2 && IsTrail(s[1]) {
        var cp := Combined(s[0], s[1]);
        EncodeRepairs(s[2..]);
        assert s[1..][1..] == s[2..];
        assert Encode(s) == EncodeFrom(s[1..], Some(s[0])) == Bytes(cp) + Encode(s[2..]);
        DecodePrepends(cp, Encode(s[2..]));
        PairInverts(s[0], s[1]);
      } else if IsLead(s[0]) && |s| == 2 && IsLead(s[1]) {
        assert s[1..][1..] == [];
        assert EncodeFrom(s[1..], Some(s[0])) == REPLACEMENT + EncodeFrom(s[1..][1..], Some(s[1]));
        assert Encode(s) == Bytes(0xFFFD) + [];
        DecodePrepends(0xFFFD, []);
      } else {
        UnpairedHead(s);
        EncodeRepairs(s[1..]);
        DecodePrepends(0xFFFD, Encode(s[1..]));
      }
    }
  }

  // ---------------------------------------------------------------- the syntax of UTF-8

  predicate IsTail(b: Byte) {
    0x80 <= b <= 0xBF
  }

  /** The first n bytes are one character by the grammar of section 4 of RFC 3629. */
  predicate IsUtf8Char(b: seq<Byte>, n: nat)
    requires n <= |b|
  {
    || (n == 1 && b[0] <= 0x7F)
    || (n == 2 && 0xC2 <= b[0] <= 0xDF && IsTail(b[1]))
    || (n == 3 && IsTail(b[2])
        && ((b[0] == 0xE0 && 0xA0 <= b[1] <= 0xBF) || (0xE1 <= b[0] <= 0xEC && IsTail(b[1]))
            || (b[0] == 0xED && 0x80 <= b[1] <= 0x9F) || (0xEE <= b[0] <= 0xEF && IsTail(b[1]))))
    || (n == 4 && IsTail(b[2]) && IsTail(b[3])
        && ((b[0] == 0xF0 && 0x90 <= b[1] <= 0xBF) || (0xF1 <= b[0] <= 0xF3 && IsTail(b[1])) || (b[0] == 0xF4 && 0x80 <= b[1] <= 0x8F)))
  }

  /** The bits that the table of section 3 marks with an x. */
  function CharValue(b: seq<Byte>, n: nat): nat
    requires 1 <= n <= 4 && n <= |b|
  {
    if n == 1 then b[0] as int % 128
    else if n == 2 then b[0] as int % 32 * 64 + b[1] as int % 64
    else if n == 3 then b[0] as int % 16 * 4096 + b[1] as int % 64 * 64 + b[2] as int % 64
    else b[0] as int % 8 * 262144 + b[1] as int % 64 * 4096 + b[2] as int % 64 * 64 + b[3] as int % 64
  }

  /** The x bits of a lead byte are what is left when its marker is taken off. */
  lemma LeadBits(b: Byte)
    ensures b <= 0x7F ==> b as int % 128 == b as int
    ensures 0xC0 <= b <= 0xDF ==> b as int % 32 == b as int - 0xC0
    ensures 0xE0 <= b <= 0xEF ==> b as int % 16 == b as int - 0xE0
    ensures 0xF0 <= b <= 0xF7 ==> b as int % 8 == b as int - 0xF0
    ensures IsTail(b) ==> b as int % 64 == b as int - 0x80
  {
  }

  lemma CharDecodes(b: seq<Byte>, n: nat)
    requires 1 <= n <= 4 && n <= |b| && IsUtf8Char(b, n)
    ensures DecodeStep(b) == (CharValue(b, n), n)
  {
    LeadBits(b[0]);
    if n >= 2 { LeadBits(b[1]); }
    if n >= 3 { LeadBits(b[2]); }
    if n == 4 { LeadBits(b[3]); }
  }

  lemma DecodedIsChar(b: seq<Byte>)
    requires b != [] && DecodeStep(b) != (0xFFFD, 1)
    ensures DecodeStep(b).1 <= 4 && IsUtf8Char(b, DecodeStep(b).1)
  {
  }

  /** The decoder follows the grammar: one character where there is one, and U+FFFD for one byte where there is none. */
  lemma DecodeStepExactly(b: seq<Byte>)
    requires b != []
    ensures forall n | 1 <= n <= 4 && n <= |b| && IsUtf8Char(b, n) :: DecodeStep(b) == (CharValue(b, n), n)
    ensures (forall n | 1 <= n <= 4 && n <= |b| :: !IsUtf8Char(b, n)) ==> DecodeStep(b) == (0xFFFD, 1)
  {
    forall n | 1 <= n <= 4 && n <= |b| && IsUtf8Char(b, n) { CharDecodes(b, n); }
    if DecodeStep(b) != (0xFFFD, 1) { DecodedIsChar(b); }
  }

  // ---------------------------------------------------------------- how many bytes

  predicate Ascii(s: JsString) {
    forall k | 0 <= k < |s| :: s[k] < 0x80
  }

  lemma {:induction false} EncodedLength(s: JsString, lead: Option<CodeUnit>)
    requires lead.Some? ==> IsLead(lead.value)
    ensures |EncodeFrom(s, lead)| >= |s|
    ensures lead.Some? && s != [] ==> |EncodeFrom(s, lead)| >= |s| + 2
    ensures lead.None? && !Ascii(s) ==> |EncodeFrom(s, lead)| > |s|
    ensures lead.None? && Ascii(s) ==> EncodeFrom(s, lead) == s
  {
    if s != [] {
      var u, rest := s[0], s[1..];
      assert s == [u] + rest;
      EncodedLength(rest, None);
      if IsLead(u) { EncodedLength(rest, Some(u)); }
      assert Ascii(s) ==> Ascii(rest) && Bytes(u) == [u];
      assert !Ascii(s) ==> u >= 0x80 || !Ascii(rest);
      assert u >= 0x80 ==> |Bytes(u)| >= 2;
    }
  }

  /** A string is as many bytes as it has code units exactly when it is ASCII. */
  lemma LengthIsBytesExactly(s: JsString)
    ensures |Encode(s)| == |s| <==> Ascii(s)
  {
    EncodedLength(s, None);
  }
}
