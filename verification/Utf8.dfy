/** The streaming UTF-8 decoder of the grammar sampler: it may be cut anywhere, and carries the
    partial character over to the next piece of text. */
module Utf8 {
  type Byte = b: nat | b < 256

  /** A character of which `remain` bytes are still missing; -1 after an invalid sequence. */
  datatype Partial = Partial(value: nat, remain: int)

  /** Code points with the terminating zero, and what is carried over. */
  datatype Decoded = Decoded(points: seq<nat>, partial: Partial)

  const INVALID := Decoded([0], Partial(0, -1))

  /** Length of a sequence by its lead byte's high four bits; 0 for a continuation byte. */
  function Lookup(b: Byte): nat {
    var high := b / 16;
    if high < 8 then 1 else if high < 12 then 0 else if high < 14 then 2 else if high == 14 then 3 else 4
  }

  predicate IsContinuation(b: Byte) { b / 64 == 2 }

  /** `1 << (7 - remain)`: one more than the mask of a lead byte's payload. */
  function MaskSize(remain: int): (m: nat)
    ensures m > 0
  {
    if remain == 0 then 128 else if remain == 1 then 64 else if remain == 2 then 32 else 16
  }

  // ---- the decoder, as the source structures it ----

  datatype Resumed = Broken | Resumed(rest: seq<Byte>, p: Partial)

  /** Continue the character carried over.  Only here are continuation bytes checked. */
  function Resume(src: seq<Byte>, p: Partial): (r: Resumed)
    ensures r.Resumed? ==> |r.rest| <= |src|
    decreases |src|
  {
    if src == [] || p.remain <= 0 then Resumed(src, p)
    else if !IsContinuation(src[0]) then Broken
    else Resume(src[1..], Partial(p.value * 64 + src[0] % 64, p.remain - 1))
  }

  /** Take up to `p.remain` bytes, unchecked. */
  function Take(src: seq<Byte>, p: Partial): (r: (seq<Byte>, Partial))
    ensures |r.0| <= |src| && (r.1.remain > 0 ==> r.0 == [])
    decreases |src|
  {
    if src == [] || p.remain <= 0 then (src, p)
    else Take(src[1..], Partial(p.value * 64 + src[0] % 64, p.remain - 1))
  }

  function Lead(b: Byte): Partial {
    var remain := Lookup(b) - 1;
    Partial(b % MaskSize(remain), remain)
  }

  /** Whole characters from a lead byte on; the last one may be cut off. */
  function Characters(src: seq<Byte>, p: Partial, points: seq<nat>): Decoded
    decreases |src|
  {
    if src == [] then Decoded(points + [0], p)
    else if Lookup(src[0]) == 0 then INVALID
    else
      var (rest, q) := Take(src[1..], Lead(src[0]));
      Characters(rest, q, if q.remain == 0 then points + [q.value] else points)
  }

  function Decode(src: seq<Byte>, start: Partial): Decoded {
    match Resume(src, start)
    case Broken => INVALID
    case Resumed(rest, p) => Characters(rest, p, if start.remain > 0 && p.remain == 0 then [p.value] else [])
  }

  method DecodeUtf8(src: seq<Byte>, start: Partial) returns (d: Decoded)
    ensures d == Decode(src, start)
  {
    var ok, pos, p := ResumeLoop(src, start);
    if !ok {
      return INVALID;
    }
    var points: seq<nat> := [];
    if start.remain > 0 && p.remain == 0 {
      points := [p.value];
    }
    while pos < |src|
      invariant pos <= |src|
      invariant Decode(src, start) == Characters(src[pos..], p, points)
    {
      p := Lead(src[pos]);
      if p.remain < 0 {
        return INVALID;
      }
      assert src[pos..][1..] == src[pos + 1..];
      pos, p := TakeLoop(src, pos + 1, p);
      if p.remain == 0 {
        points := points + [p.value];
      }
    }
    d := Decoded(points + [0], p);
  }

  method ResumeLoop(src: seq<Byte>, start: Partial) returns (ok: bool, pos: nat, p: Partial)
    ensures pos <= |src|
    ensures Resume(src, start) == if ok then Resumed(src[pos..], p) else Broken
  {
    p, pos := start, 0;
    while pos < |src| && p.remain > 0
      invariant pos <= |src|
      invariant Resume(src, start) == Resume(src[pos..], p)
    {
      if src[pos] / 64 != 2 {
        return false, pos, p;
      }
      p := Partial(p.value * 64 + src[pos] % 64, p.remain - 1);
      pos := pos + 1;
    }
    ok := true;
  }

  method TakeLoop(src: seq<Byte>, from: nat, start: Partial) returns (pos: nat, p: Partial)
    requires from <= |src|
    ensures from <= pos <= |src| && Take(src[from..], start) == (src[pos..], p)
  {
    p, pos := start, from;
    while pos < |src| && p.remain > 0
      invariant from <= pos <= |src|
      invariant Take(src[from..], start) == Take(src[pos..], p)
    {
      p := Partial(p.value * 64 + src[pos] % 64, p.remain - 1);
      pos := pos + 1;
    }
  }

  // ---- the simple machine: one byte at a time ----

  function Feed(p: Partial, b: Byte): Partial {
    if p.remain > 0 then Partial(p.value * 64 + b % 64, p.remain - 1) else Lead(b)
  }

  function Emit(p: Partial): seq<nat> {
    if p.remain == 0 then [p.value] else []
  }

  /** The code points completed while reading `src`. */
  function Points(src: seq<Byte>, p: Partial): seq<nat>
    decreases |src|
  {
    if src == [] then [] else Emit(Feed(p, src[0])) + Points(src[1..], Feed(p, src[0]))
  }

  function After(src: seq<Byte>, p: Partial): Partial
    decreases |src|
  {
    if src == [] then p else After(src[1..], Feed(p, src[0]))
  }

  /** The bytes that finish the carried-over character are continuation bytes. */
  predicate ResumeOk(src: seq<Byte>, remain: int) {
    forall k :: 0 <= k < |src| && k < remain ==> IsContinuation(src[k])
  }

  /** Wherever a character has to start there is a lead byte. */
  predicate LeadsOk(src: seq<Byte>, remain: int)
    decreases |src|
  {
    src == [] ||
    if remain > 0 then LeadsOk(src[1..], remain - 1)
    else Lookup(src[0]) > 0 && LeadsOk(src[1..], Lookup(src[0]) - 1)
  }

  lemma {:induction false} TakeIsMachine(src: seq<Byte>, p: Partial)
    ensures var (rest, q) := Take(src, p);
            && (p.remain >= 0 ==> q.remain >= 0)
            && (LeadsOk(src, p.remain) <==> LeadsOk(rest, q.remain))
            && After(src, p) == After(rest, q)
            && Points(src, p) == (if p.remain > 0 && q.remain == 0 then [q.value] else []) + Points(rest, q)
    decreases |src|
  {
    if src != [] && p.remain > 0 {
      TakeIsMachine(src[1..], Feed(p, src[0]));
    }
  }

  lemma {:induction false} CharactersAreMachine(src: seq<Byte>, p: Partial, points: seq<nat>)
    requires p.remain > 0 ==> src == []
    ensures Characters(src, p, points) ==
            if LeadsOk(src, 0) then Decoded(points + Points(src, p) + [0], After(src, p)) else INVALID
    decreases |src|
  {
    if src != [] && Lookup(src[0]) > 0 {
      var (rest, q) := Take(src[1..], Lead(src[0]));
      LeadIsMachine(src, p, rest, q);
      hide Take, Points, After, LeadsOk, Lookup, Lead;
      var points' := if q.remain == 0 then points + [q.value] else points;
      CharactersAreMachine(rest, q, points');
      assert points + Points(src, p) == points' + Points(rest, q);
    }
  }

  /** One whole character, or its first bytes. */
  lemma LeadIsMachine(src: seq<Byte>, p: Partial, rest: seq<Byte>, q: Partial)
    requires src != [] && p.remain <= 0 && Lookup(src[0]) > 0 && (rest, q) == Take(src[1..], Lead(src[0]))
    ensures |rest| < |src| && q.remain >= 0 && (q.remain > 0 ==> rest == [])
    ensures LeadsOk(src, 0) <==> LeadsOk(rest, 0)
    ensures After(src, p) == After(rest, q)
    ensures Points(src, p) == (if q.remain == 0 then [q.value] else []) + Points(rest, q)
  {
    var lead := Lead(src[0]);
    LeadSteps(src, p, lead);
    hide Points, After, LeadsOk, Lookup, Lead;
    TakeIsMachine(src[1..], lead);
    if q.remain > 0 {
      NothingLeft(q);
    }
    if lead.remain == 0 {
      assert Emit(lead) == [q.value];
    } else {
      assert Emit(lead) == [];
    }
  }

  lemma LeadSteps(src: seq<Byte>, p: Partial, lead: Partial)
    requires src != [] && p.remain <= 0 && Lookup(src[0]) > 0 && lead == Lead(src[0])
    ensures lead.remain >= 0
    ensures LeadsOk(src, 0) <==> LeadsOk(src[1..], lead.remain)
    ensures After(src, p) == After(src[1..], lead)
    ensures Points(src, p) == Emit(lead) + Points(src[1..], lead)
  {
  }

  lemma NothingLeft(q: Partial)
    ensures LeadsOk([], q.remain) && LeadsOk([], 0) && Points([], q) == [] && After([], q) == q
  {
  }

  lemma {:induction false} ResumeIsMachine(src: seq<Byte>, p: Partial)
    ensures Resume(src, p).Resumed? <==> ResumeOk(src, p.remain)
    ensures ResumeOk(src, p.remain) ==> Resume(src, p) == Resumed(Take(src, p).0, Take(src, p).1)
    decreases |src|
  {
    if src != [] && p.remain > 0 {
      ResumeIsMachine(src[1..], Feed(p, src[0]));
      ResumeOkCons(src, p.remain);
    }
  }

  lemma ResumeOkCons(src: seq<Byte>, remain: int)
    requires src != [] && remain > 0
    ensures ResumeOk(src, remain) <==> IsContinuation(src[0]) && ResumeOk(src[1..], remain - 1)
  {
    if ResumeOk(src, remain) {
      forall k | 0 <= k < |src| - 1 && k < remain - 1 ensures IsContinuation(src[1..][k]) {
        assert src[1..][k] == src[k + 1];
      }
    }
    if IsContinuation(src[0]) && ResumeOk(src[1..], remain - 1) {
      forall k | 0 <= k < |src| && k < remain ensures IsContinuation(src[k]) {
        if k > 0 { assert src[k] == src[1..][k - 1]; }
      }
    }
  }

  /** What the decoder computes, for every text and every carried-over state, the one after an
      invalid token included: the machine's answer when the resumed bytes are continuations and every lead byte is one, and the
      invalid marker otherwise. */
  lemma DecodeExactly(src: seq<Byte>, p: Partial)
    ensures Decode(src, p) ==
            if ResumeOk(src, p.remain) && LeadsOk(src, p.remain)
            then Decoded(Points(src, p) + [0], After(src, p)) else INVALID
  {
    ResumeIsMachine(src, p);
    TakeIsMachine(src, p);
    if ResumeOk(src, p.remain) {
      var (rest, q) := Take(src, p);
      var points := if p.remain > 0 && q.remain == 0 then [q.value] else [];
      CharactersAreMachine(rest, q, points);
      assert q.remain > 0 ==> LeadsOk(rest, 0) && LeadsOk(rest, q.remain);
      assert points + Points(rest, q) == Points(src, p);
    }
  }

  // ---- cutting the text ----

  lemma {:induction false} MachineConcat(a: seq<Byte>, b: seq<Byte>, p: Partial)
    ensures Points(a + b, p) == Points(a, p) + Points(b, After(a, p))
    ensures After(a + b, p) == After(b, After(a, p))
    ensures LeadsOk(a + b, p.remain) <==> LeadsOk(a, p.remain) && LeadsOk(b, After(a, p).remain)
    decreases |a|
  {
    if a == [] {
      assert a + b == b;
    } else {
      var q := Feed(p, a[0]);
      assert (a + b)[0] == a[0] && (a + b)[1..] == a[1..] + b;
      MachineConcat(a[1..], b, q);
      assert Emit(q) + (Points(a[1..], q) + Points(b, After(a, p))) == Points(a, p) + Points(b, After(a, p));
    }
  }

  /** Reading anything leaves a proper state. */
  lemma {:induction false} MachineRemain(src: seq<Byte>, p: Partial)
    requires (src != [] || p.remain >= 0) && LeadsOk(src, p.remain)
    ensures After(src, p).remain >= 0
    decreases |src|
  {
    if src != [] { MachineRemain(src[1..], Feed(p, src[0])); }
  }

  lemma ResumeOkFirst(a: seq<Byte>, b: seq<Byte>, remain: int)
    requires ResumeOk(a + b, remain)
    ensures ResumeOk(a, remain)
  {
    forall k | 0 <= k < |a| && k < remain ensures IsContinuation(a[k]) { assert (a + b)[k] == a[k]; }
  }

  /** Cutting a text that decodes is invisible exactly when the bytes after the cut that finish
      the cut character are continuation bytes. */
  lemma CutIsInvisibleIff(a: seq<Byte>, b: seq<Byte>, p: Partial)
    requires Decode(a + b, p) != INVALID
    ensures a != [] || p.remain >= 0 ==> Decode(a, p) != INVALID
    ensures var first := Decode(a, p); var second := Decode(b, first.partial); var whole := Decode(a + b, p);
            && |first.points| > 0
            && (first.points[..|first.points| - 1] + second.points == whole.points && second.partial == whole.partial
                <==> ResumeOk(b, first.partial.remain))
  {
    hide Decode, Points, After, LeadsOk;
    var q := After(a, p);
    DecodeExactly(a + b, p);
    MachineConcat(a, b, p);
    ResumeOkFirst(a, b, p.remain);
    DecodeExactly(a, p);
    DecodeExactly(b, q);
    if a != [] || p.remain >= 0 { MachineRemain(a, p); }
    if !ResumeOk(b, q.remain) { MachineRemain(a + b, p); }
    CutPoints(Points(a, p), Points(b, q));
  }

  lemma CutPoints(x: seq<nat>, y: seq<nat>)
    ensures (x + [0])[..|x|] + (y + [0]) == x + y + [0]
  {
  }

  /** A cut that shows: inside one piece the byte after a lead byte is taken unchecked, after a cut
      the same byte makes the text invalid. */
  lemma CutShows()
    ensures var a, b, p := [0xC3], [0x41], Partial(0, 0);
            Decode(a + b, p) == Decoded([0xC1, 0], Partial(0xC1, 0)) && Decode(b, Decode(a, p).partial) == INVALID
  {
    var p, lead := Partial(0, 0), Lead(0xC3);
    assert [0xC3, 0x41][1..] == [0x41] && [0xC3][1..] == [] && [0x41][1..] == [];
    assert Take([0x41], lead) == ([], Partial(0xC1, 0));
    assert Decode([0xC3] + [0x41], p) == Characters([0xC3, 0x41], p, []);
  }

  // ---- valid UTF-8 (RFC 3629, section 3) ----

  /** A code point other than NUL.  (Surrogates need no exception here.) */
  predicate IsPoint(c: nat) { 0 < c <= 0x10FFFF }

  function Encode(c: nat): (s: seq<Byte>)
    requires IsPoint(c)
    ensures |s| > 0
  {
    if c < 0x80 then [c]
    else if c < 0x800 then [0xC0 + c / 64, 0x80 + c % 64]
    else if c < 0x10000 then [0xE0 + c / 4096, 0x80 + c / 64 % 64, 0x80 + c % 64]
    else [0xF0 + c / 262144, 0x80 + c / 4096 % 64, 0x80 + c / 64 % 64, 0x80 + c % 64]
  }

  function EncodeAll(cs: seq<nat>): seq<Byte>
    requires forall k :: 0 <= k < |cs| ==> IsPoint(cs[k])
  {
    if cs == [] then [] else Encode(cs[0]) + EncodeAll(cs[1..])
  }

  /** Every byte is a lead or a continuation byte as its place demands. */
  predicate Shaped(src: seq<Byte>, remain: int)
    decreases |src|
  {
    src == [] ||
    if remain > 0 then IsContinuation(src[0]) && Shaped(src[1..], remain - 1)
    else Lookup(src[0]) > 0 && Shaped(src[1..], Lookup(src[0]) - 1)
  }

  lemma {:induction false} ShapedIsOk(src: seq<Byte>, remain: int)
    requires Shaped(src, remain)
    ensures LeadsOk(src, remain) && ResumeOk(src, remain)
    decreases |src|
  {
    if src != [] {
      ShapedIsOk(src[1..], if remain > 0 then remain - 1 else Lookup(src[0]) - 1);
      forall k | 0 <= k < |src| && k < remain ensures IsContinuation(src[k]) {
        if k > 0 { assert src[k] == src[1..][k - 1]; }
      }
    }
  }

  lemma {:induction false} ShapedConcat(a: seq<Byte>, b: seq<Byte>, p: Partial)
    ensures Shaped(a + b, p.remain) <==> Shaped(a, p.remain) && Shaped(b, After(a, p).remain)
    decreases |a|
  {
    if a == [] {
      assert a + b == b;
    } else {
      assert (a + b)[0] == a[0] && (a + b)[1..] == a[1..] + b;
      ShapedConcat(a[1..], b, Feed(p, a[0]));
    }
  }

  /** The value after the payloads of the continuation bytes `s`. */
  function Payload(s: seq<Byte>, value: nat): nat
    decreases |s|
  {
    if s == [] then value else Payload(s[1..], value * 64 + s[0] % 64)
  }

  lemma {:induction false} FinishCharacter(s: seq<Byte>, p: Partial)
    requires 0 < p.remain == |s| && forall k :: 0 <= k < |s| ==> IsContinuation(s[k])
    ensures Shaped(s, p.remain) && Points(s, p) == [Payload(s, p.value)] && After(s, p) == Partial(Payload(s, p.value), 0)
    decreases |s|
  {
    var q := Feed(p, s[0]);
    if |s| > 1 {
      FinishCharacter(s[1..], q);
    } else {
      assert s[1..] == [];
    }
  }

  lemma DivDiv(c: nat)
    ensures c / 64 == c / 4096 * 64 + c / 64 % 64
    ensures c / 4096 == c / 262144 * 64 + c / 4096 % 64
  {
    DivBy4096(c);
    DivBy262144(c);
  }

  lemma DivBy4096(c: nat)
    ensures c / 64 / 64 == c / 4096
  {
    assert c == 64 * (c / 64) + c % 64;
  }

  lemma DivBy262144(c: nat)
    ensures c / 4096 / 64 == c / 262144
  {
    assert c == 4096 * (c / 4096) + c % 4096;
  }

  lemma EncodeTail(c: nat, s: seq<Byte>, p: Partial)
    requires IsPoint(c) && c >= 0x80 && p.remain == 0 && s == Encode(c)
    ensures var q := Feed(p, s[0]); q.remain == |s| - 1 && Payload(s[1..], q.value) == c
    ensures Lookup(s[0]) > 0 && forall k :: 0 < k < |s| ==> IsContinuation(s[k])
  {
    EncodeLead(c);
    if c < 0x800 {
      assert s[1..] == [0x80 + c % 64];
      TailOne(c);
    } else if c < 0x10000 {
      assert s[1..] == [0x80 + c / 64 % 64, 0x80 + c % 64];
      TailTwo(c);
    } else {
      assert s[1..] == [0x80 + c / 4096 % 64, 0x80 + c / 64 % 64, 0x80 + c % 64];
      TailThree(c);
    }
    hide Encode, Payload, Lead;
    forall k | 0 < k < |s| ensures IsContinuation(s[k]) {
      assert s[k] == s[1..][k - 1];
    }
  }

  ghost predicate AllContinue(s: seq<Byte>) {
    forall k :: 0 <= k < |s| ==> IsContinuation(s[k])
  }

  lemma TailOne(c: nat)
    ensures var s := [0x80 + c % 64]; AllContinue(s) && Payload(s, c / 64) == c
  {
    LowBits(c % 64);
    Payload1(0x80 + c % 64, c / 64);
  }

  lemma TailTwo(c: nat)
    ensures var s := [0x80 + c / 64 % 64, 0x80 + c % 64]; AllContinue(s) && Payload(s, c / 4096) == c
  {
    DivDiv(c);
    LowBits(c % 64);
    LowBits(c / 64 % 64);
    Payload2(0x80 + c / 64 % 64, 0x80 + c % 64, c / 4096);
  }

  lemma TailThree(c: nat)
    ensures var s := [0x80 + c / 4096 % 64, 0x80 + c / 64 % 64, 0x80 + c % 64]; AllContinue(s) && Payload(s, c / 262144) == c
  {
    DivDiv(c);
    ThreePayloads(c, c / 262144, c / 4096 % 64, c / 64 % 64, c % 64);
  }

  lemma ThreePayloads(c: nat, v: nat, x: nat, y: nat, z: nat)
    requires x < 64 && y < 64 && z < 64 && c == ((v * 64 + x) * 64 + y) * 64 + z
    ensures var s := [0x80 + x, 0x80 + y, 0x80 + z]; AllContinue(s) && Payload(s, v) == c
  {
    hide Payload;
    LowBits(x);
    LowBits(y);
    LowBits(z);
    Payload3(0x80 + x, 0x80 + y, 0x80 + z, v);
  }

  lemma LowBits(y: nat)
    requires y < 64
    ensures (0x80 + y) % 64 == y && IsContinuation(0x80 + y)
  {
  }

  lemma EncodeLead(c: nat)
    requires IsPoint(c) && c >= 0x80
    ensures Lead(Encode(c)[0]) == if c < 0x800 then Partial(c / 64, 1) else if c < 0x10000 then Partial(c / 4096, 2)
                                  else Partial(c / 262144, 3)
  {
  }

  lemma Payload1(x: Byte, v: nat)
    ensures Payload([x], v) == v * 64 + x % 64
  {
    assert [x][1..] == [];
  }

  lemma Payload2(x: Byte, y: Byte, v: nat)
    ensures Payload([x, y], v) == (v * 64 + x % 64) * 64 + y % 64
  {
    assert [x, y][1..] == [y];
    Payload1(y, v * 64 + x % 64);
  }

  lemma Payload3(x: Byte, y: Byte, z: Byte, v: nat)
    ensures Payload([x, y, z], v) == ((v * 64 + x % 64) * 64 + y % 64) * 64 + z % 64
  {
    assert [x, y, z][1..] == [y, z];
    Payload2(y, z, v * 64 + x % 64);
  }

  lemma EncodeOne(c: nat, p: Partial)
    requires IsPoint(c) && p.remain == 0
    ensures Shaped(Encode(c), 0) && Points(Encode(c), p) == [c] && After(Encode(c), p) == Partial(c, 0)
  {
    var s := Encode(c);
    if c < 0x80 {
      assert s[1..] == [];
    } else {
      EncodeTail(c, s, p);
      FinishCharacter(s[1..], Feed(p, s[0]));
    }
  }

  lemma {:induction false} MachineDecodes(cs: seq<nat>, p: Partial)
    requires p.remain == 0 && forall k :: 0 <= k < |cs| ==> IsPoint(cs[k])
    ensures Shaped(EncodeAll(cs), 0)
    ensures Points(EncodeAll(cs), p) == cs && After(EncodeAll(cs), p).remain == 0
  {
    if cs != [] {
      hide Encode, IsPoint, Payload;
      var s, rest := Encode(cs[0]), EncodeAll(cs[1..]);
      EncodeOne(cs[0], p);
      MachineDecodes(cs[1..], Partial(cs[0], 0));
      MachineConcat(s, rest, p);
      ShapedConcat(s, rest, p);
      assert [cs[0]] + cs[1..] == cs;
    }
  }

  /** Decoding inverts encoding. */
  lemma DecodeInvertsEncode(cs: seq<nat>, p: Partial)
    requires p.remain == 0 && forall k :: 0 <= k < |cs| ==> IsPoint(cs[k])
    ensures Decode(EncodeAll(cs), p).points == cs + [0] && Decode(EncodeAll(cs), p).partial.remain == 0
  {
    MachineDecodes(cs, p);
    ShapedIsOk(EncodeAll(cs), 0);
    DecodeExactly(EncodeAll(cs), p);
  }

  function Flatten(pieces: seq<seq<Byte>>): seq<Byte> {
    if pieces == [] then [] else pieces[0] + Flatten(pieces[1..])
  }

  /** Decode piece by piece, carrying the partial state along as the sampler does. */
  function Stream(pieces: seq<seq<Byte>>, p: Partial): (r: (seq<nat>, Partial)) {
    if pieces == [] then ([], p)
    else
      var d := Decode(pieces[0], p);
      var (points, q) := Stream(pieces[1..], d.partial);
      ((if |d.points| > 0 then d.points[..|d.points| - 1] else []) + points, q)
  }

  lemma {:induction false} StreamIsMachine(pieces: seq<seq<Byte>>, p: Partial)
    requires p.remain >= 0 && Shaped(Flatten(pieces), p.remain)
    ensures Stream(pieces, p) == (Points(Flatten(pieces), p), After(Flatten(pieces), p))
  {
    if pieces != [] {
      var a, b := pieces[0], Flatten(pieces[1..]);
      ShapedConcat(a, b, p);
      ShapedIsOk(a, p.remain);
      DecodeExactly(a, p);
      MachineConcat(a, b, p);
      MachineRemain(a, p);
      StreamIsMachine(pieces[1..], After(a, p));
      assert (Points(a, p) + [0])[..|Points(a, p)|] == Points(a, p);
    }
  }

  /** Valid UTF-8 cut into pieces at arbitrary byte boundaries decodes to the same code points
      as the whole. */
  lemma StreamDecodes(cs: seq<nat>, pieces: seq<seq<Byte>>)
    requires forall k :: 0 <= k < |cs| ==> IsPoint(cs[k])
    requires Flatten(pieces) == EncodeAll(cs)
    ensures Stream(pieces, Partial(0, 0)).0 == cs && Stream(pieces, Partial(0, 0)).1.remain == 0
  {
    MachineDecodes(cs, Partial(0, 0));
    StreamIsMachine(pieces, Partial(0, 0));
  }
}
