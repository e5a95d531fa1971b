// The UTF-8 side of the Markdown check: a byte-at-a-time decoder that keeps an
// unfinished character between chunks, and its equivalence with the encoding of
// section 3 of RFC 3629.
module Utf8 {
  import opened Common

  type Byte = b: int | 0 <= b < 0x100

  // ---------- Reference: section 3 of RFC 3629 ----------

  predicate IsScalar(cp: int) {
    0 <= cp < 0xD800 || 0xE000 <= cp < 0x11_0000
  }

  predicate AllScalar(text: seq<int>) {
    forall i :: 0 <= i < |text| ==> IsScalar(text[i])
  }

  function Encode(cp: int): seq<Byte>
    requires IsScalar(cp)
  {
    if cp < 0x80 then [cp]
    else if cp < 0x800 then [0xC0 + cp / 0x40, 0x80 + cp % 0x40]
    else if cp < 0x1_0000 then [0xE0 + cp / 0x1000, 0x80 + cp / 0x40 % 0x40, 0x80 + cp % 0x40]
    else [0xF0 + cp / 0x4_0000, 0x80 + cp / 0x1000 % 0x40, 0x80 + cp / 0x40 % 0x40, 0x80 + cp % 0x40]
  }

  function EncodeAll(text: seq<int>): seq<Byte>
    requires AllScalar(text)
  {
    if text == [] then [] else Encode(text[0]) + EncodeAll(text[1..])
  }

  // ---------- The incremental decoder: section 4 of RFC 3629 ----------

  datatype StepResult = Emit(cp: int) | More(pending: seq<Byte>) | Bad

  // Length of the character a lead byte starts; 0 for a byte that starts none.
  function Need(lead: Byte): nat {
    if lead < 0x80 then 1
    else if 0xC2 <= lead <= 0xDF then 2
    else if 0xE0 <= lead <= 0xEF then 3
    else if 0xF0 <= lead <= 0xF4 then 4
    else 0
  }

  predicate IsTail(b: Byte) { 0x80 <= b <= 0xBF }

  // The second byte is restricted further after E0, ED, F0 and F4.
  predicate ValidSecond(lead: Byte, b: Byte) {
    && IsTail(b)
    && (lead == 0xE0 ==> 0xA0 <= b)
    && (lead == 0xED ==> b <= 0x9F)
    && (lead == 0xF0 ==> 0x90 <= b)
    && (lead == 0xF4 ==> b <= 0x8F)
  }

  // What the decoder may hold back between two chunks: at most three bytes.
  predicate ValidPending(p: seq<Byte>) {
    p == [] || (
      && |p| < Need(p[0])
      && 2 <= Need(p[0])
      && (2 <= |p| ==> ValidSecond(p[0], p[1]))
      && (3 <= |p| ==> IsTail(p[2])))
  }

  function Value(c: seq<Byte>): int
    requires 1 <= |c| <= 4
  {
    var lead: int := c[0];
    var tail := (i: int) requires 1 <= i < |c| => c[i] as int - 0x80;
    if |c| == 1 then lead
    else if |c| == 2 then (lead - 0xC0) * 0x40 + tail(1)
    else if |c| == 3 then (lead - 0xE0) * 0x1000 + tail(1) * 0x40 + tail(2)
    else (lead - 0xF0) * 0x4_0000 + tail(1) * 0x1000 + tail(2) * 0x40 + tail(3)
  }

  function Step(p: seq<Byte>, b: Byte): StepResult
    requires ValidPending(p)
  {
    if p == [] then
      if Need(b) == 0 then Bad else if Need(b) == 1 then Emit(b) else More([b])
    else if !(if |p| == 1 then ValidSecond(p[0], b) else IsTail(b)) then Bad
    else if |p| + 1 == Need(p[0]) then Emit(Value(p + [b]))
    else More(p + [b])
  }

  datatype Decoding = Ok(text: seq<int>, pending: seq<Byte>) | Invalid

  // Decodes `bs` after the held-back bytes `p`; never flushes.
  function Run(p: seq<Byte>, bs: seq<Byte>): (d: Decoding)
    requires ValidPending(p)
    ensures d.Ok? ==> ValidPending(d.pending)
    decreases |bs|
  {
    if bs == [] then Ok([], p)
    else
      var step := Step(p, bs[0]);
      if step.Bad? then Invalid
      else if step.More? then Run(step.pending, bs[1..])
      else Prepend([step.cp], Run([], bs[1..]))
  }

  function Prepend(text: seq<int>, d: Decoding): Decoding {
    match d
    case Invalid => Invalid
    case Ok(rest, p) => Ok(text + rest, p)
  }

  // ---------- Whole-string decoding is the inverse of the encoding ----------

  lemma {:induction false} EncodeAllAppend(a: seq<int>, b: seq<int>)
    requires AllScalar(a) && AllScalar(b)
    ensures EncodeAll(a + b) == EncodeAll(a) + EncodeAll(b)
  {
    if a == [] {
      assert a + b == b;
    } else {
      assert (a + b)[1..] == a[1..] + b;
      EncodeAllAppend(a[1..], b);
    }
  }

  // A finished character is the encoding of the value it is emitted as.
  lemma EmitIsEncode(p: seq<Byte>, b: Byte)
    requires ValidPending(p) && Step(p, b).Emit?
    ensures IsScalar(Step(p, b).cp)
    ensures Encode(Step(p, b).cp) == p + [b]
  {
    var c: seq<int> := p + [b];
    if |c| == 2 {
      assert Value(p + [b]) / 0x40 == c[0] - 0xC0;
    } else if |c| == 3 {
      EmitOfThree(p, b);
    } else if |c| == 4 {
      EmitOfFour(p, b);
    }
  }

  lemma EmitOfThree(p: seq<Byte>, b: Byte)
    requires ValidPending(p) && |p| == 2 && Step(p, b).Emit?
    ensures IsScalar(Step(p, b).cp) && Encode(Step(p, b).cp) == p + [b]
  {
    var c: seq<int> := p + [b];
    var v := Value(p + [b]);
    assert v / 0x40 == (c[0] - 0xE0) * 0x40 + (c[1] - 0x80);
    assert v / 0x1000 == c[0] - 0xE0;
  }

  lemma EmitOfFour(p: seq<Byte>, b: Byte)
    requires ValidPending(p) && |p| == 3 && Step(p, b).Emit?
    ensures IsScalar(Step(p, b).cp) && Encode(Step(p, b).cp) == p + [b]
  {
    var c: seq<int> := p + [b];
    var v := Value(p + [b]);
    assert v / 0x40 == (c[0] - 0xF0) * 0x1000 + (c[1] - 0x80) * 0x40 + (c[2] - 0x80);
    assert v / 0x1000 == (c[0] - 0xF0) * 0x40 + (c[1] - 0x80);
    assert v / 0x4_0000 == c[0] - 0xF0;
  }

  lemma MoreKeepsBytes(p: seq<Byte>, b: Byte)
    requires ValidPending(p) && Step(p, b).More?
    ensures Step(p, b).pending == p + [b]
  {
    assert p == [] ==> p + [b] == [b];
  }

  lemma MoreShiftsByte(p: seq<Byte>, bs: seq<Byte>)
    requires ValidPending(p) && bs != [] && Step(p, bs[0]).More?
    ensures Step(p, bs[0]).pending + bs[1..] == p + bs
  {
    MoreKeepsBytes(p, bs[0]);
    assert p + bs == (p + [bs[0]]) + bs[1..];
  }

  lemma EncodeAllCons(cp: int, rest: seq<int>)
    requires IsScalar(cp) && AllScalar(rest)
    ensures AllScalar([cp] + rest)
    ensures EncodeAll([cp] + rest) == Encode(cp) + EncodeAll(rest)
  {
    assert ([cp] + rest)[1..] == rest;
  }

  lemma AfterEmit(p: seq<Byte>, bs: seq<Byte>, text: seq<int>, q: seq<Byte>)
    requires ValidPending(p) && bs != [] && Step(p, bs[0]).Emit? && AllScalar(text)
    requires bs[1..] == EncodeAll(text) + q
    ensures AllScalar([Step(p, bs[0]).cp] + text)
    ensures p + bs == EncodeAll([Step(p, bs[0]).cp] + text) + q
  {
    EmitIsEncode(p, bs[0]);
    CharThenRest(p + [bs[0]], Step(p, bs[0]).cp, text, bs[1..], q);
    assert p + bs == (p + [bs[0]]) + bs[1..];
  }

  lemma CharThenRest(bytes: seq<Byte>, cp: int, text: seq<int>, rest: seq<Byte>, q: seq<Byte>)
    requires IsScalar(cp) && AllScalar(text) && bytes == Encode(cp) && rest == EncodeAll(text) + q
    ensures AllScalar([cp] + text) && bytes + rest == EncodeAll([cp] + text) + q
  {
    EncodeAllCons(cp, text);
  }

  // Whatever the decoder accepts, its input is the encoding of its output
  // followed by the bytes it still holds back.
  lemma {:induction false} RunSound(p: seq<Byte>, bs: seq<Byte>)
    requires ValidPending(p) && Run(p, bs).Ok?
    ensures AllScalar(Run(p, bs).text)
    ensures p + bs == EncodeAll(Run(p, bs).text) + Run(p, bs).pending
    decreases |bs|, 1
  {
    if bs == [] {
    } else if Step(p, bs[0]).More? {
      RunSound(Step(p, bs[0]).pending, bs[1..]);
      MoreShiftsByte(p, bs);
    } else {
      RunSoundEmit(p, bs);
    }
  }

  lemma {:induction false} RunSoundEmit(p: seq<Byte>, bs: seq<Byte>)
    requires ValidPending(p) && bs != [] && Step(p, bs[0]).Emit? && Run([], bs[1..]).Ok?
    ensures var text := [Step(p, bs[0]).cp] + Run([], bs[1..]).text;
            AllScalar(text) && p + bs == EncodeAll(text) + Run([], bs[1..]).pending
    decreases |bs|, 0
  {
    RunSound([], bs[1..]);
    var rest := Run([], bs[1..]);
    assert [] + bs[1..] == bs[1..];
    AfterEmit(p, bs, rest.text, rest.pending);
  }

  lemma RunTwo(p: seq<Byte>, a: Byte, rest: seq<Byte>)
    requires ValidPending(p)
    ensures Run(p, [a] + rest) == (var step := Step(p, a);
                                   if step.Bad? then Invalid
                                   else if step.More? then Run(step.pending, rest)
                                   else Prepend([step.cp], Run([], rest)))
  {
    assert ([a] + rest)[1..] == rest;
  }

  // The steps the decoder takes over one encoded character.
  lemma EncodeSteps(cp: int)
    requires IsScalar(cp)
    ensures var e := Encode(cp);
            && 1 <= |e| <= 4
            && (|e| == 1 ==> Step([], e[0]) == Emit(cp))
            && (2 <= |e| ==> Step([], e[0]) == More([e[0]]))
            && (|e| == 2 ==> Step([e[0]], e[1]) == Emit(cp))
            && (3 <= |e| ==> Step([e[0]], e[1]) == More([e[0], e[1]]))
            && (|e| == 3 ==> Step([e[0], e[1]], e[2]) == Emit(cp))
            && (4 == |e| ==> Step([e[0], e[1]], e[2]) == More([e[0], e[1], e[2]]))
            && (4 == |e| ==> Step([e[0], e[1], e[2]], e[3]) == Emit(cp))
  {
    var e := Encode(cp);
    assert cp == cp / 0x40 * 0x40 + cp % 0x40;
    if |e| == 2 {
      assert [e[0]] + [e[1]] == e;
    } else if |e| == 3 {
      assert cp / 0x40 == cp / 0x1000 * 0x40 + cp / 0x40 % 0x40;
      assert [e[0]] + [e[1]] == [e[0], e[1]] && [e[0], e[1]] + [e[2]] == e;
    } else if |e| == 4 {
      EncodeFourSteps(cp);
    }
  }

  lemma EncodeFourSteps(cp: int)
    requires 0x1_0000 <= cp < 0x11_0000
    ensures var e := Encode(cp);
            && Step([], e[0]) == More([e[0]]) && Step([e[0]], e[1]) == More([e[0], e[1]])
            && Step([e[0], e[1]], e[2]) == More([e[0], e[1], e[2]])
            && Step([e[0], e[1], e[2]], e[3]) == Emit(cp)
  {
    var e := Encode(cp);
    assert cp == cp / 0x40 * 0x40 + cp % 0x40;
    assert cp / 0x40 == cp / 0x1000 * 0x40 + cp / 0x40 % 0x40;
    assert cp / 0x1000 == cp / 0x4_0000 * 0x40 + cp / 0x1000 % 0x40;
    assert [e[0]] + [e[1]] == [e[0], e[1]] && [e[0], e[1]] + [e[2]] == [e[0], e[1], e[2]];
    assert [e[0], e[1], e[2]] + [e[3]] == e;
  }

  // One encoded character is read back whatever follows it.
  lemma RunEncode(cp: int, rest: seq<Byte>)
    requires IsScalar(cp)
    ensures Run([], Encode(cp) + rest) == Prepend([cp], Run([], rest))
  {
    var e := Encode(cp);
    EncodeSteps(cp);
    if |e| == 1 {
      assert e + rest == [e[0]] + rest;
      RunTwo([], e[0], rest);
    } else if |e| == 2 {
      assert e + rest == [e[0]] + ([e[1]] + rest);
      RunTwo([], e[0], [e[1]] + rest);
      RunTwo([e[0]], e[1], rest);
    } else if |e| == 3 {
      RunThree(e, cp, rest);
    } else {
      RunFour(e, cp, rest);
    }
  }

  lemma RunThree(e: seq<Byte>, cp: int, rest: seq<Byte>)
    requires |e| == 3 && Step([], e[0]) == More([e[0]])
    requires ValidPending([e[0]]) && Step([e[0]], e[1]) == More([e[0], e[1]])
    requires ValidPending([e[0], e[1]]) && Step([e[0], e[1]], e[2]) == Emit(cp)
    ensures Run([], e + rest) == Prepend([cp], Run([], rest))
  {
    assert e + rest == [e[0]] + ([e[1]] + ([e[2]] + rest));
    RunTwo([], e[0], [e[1]] + ([e[2]] + rest));
    RunTwo([e[0]], e[1], [e[2]] + rest);
    RunTwo([e[0], e[1]], e[2], rest);
  }

  lemma RunFour(e: seq<Byte>, cp: int, rest: seq<Byte>)
    requires |e| == 4 && Step([], e[0]) == More([e[0]])
    requires ValidPending([e[0]]) && Step([e[0]], e[1]) == More([e[0], e[1]])
    requires ValidPending([e[0], e[1]]) && Step([e[0], e[1]], e[2]) == More([e[0], e[1], e[2]])
    requires ValidPending([e[0], e[1], e[2]]) && Step([e[0], e[1], e[2]], e[3]) == Emit(cp)
    ensures Run([], e + rest) == Prepend([cp], Run([], rest))
  {
    assert e + rest == [e[0]] + ([e[1]] + ([e[2]] + ([e[3]] + rest)));
    RunTwo([], e[0], [e[1]] + ([e[2]] + ([e[3]] + rest)));
    RunTwo([e[0]], e[1], [e[2]] + ([e[3]] + rest));
    RunTwo([e[0], e[1]], e[2], [e[3]] + rest);
    RunTwo([e[0], e[1], e[2]], e[3], rest);
  }

  lemma {:induction false} RunEncodeAll(text: seq<int>)
    requires AllScalar(text)
    ensures Run([], EncodeAll(text)) == Ok(text, [])
  {
    if text != [] {
      RunEncodeAll(text[1..]);
      RunEncode(text[0], EncodeAll(text[1..]));
      assert [text[0]] + text[1..] == text;
    }
  }

  // Round trip, both directions: a byte string decodes to `text` with nothing
  // held back exactly when it is the encoding of `text`.
  lemma DecodeIffEncoded(bs: seq<Byte>, text: seq<int>)
    ensures Run([], bs) == Ok(text, []) <==> AllScalar(text) && bs == EncodeAll(text)
  {
    if Run([], bs) == Ok(text, []) {
      RunSound([], bs);
      assert [] + bs == bs && EncodeAll(text) + [] == EncodeAll(text);
    }
    if AllScalar(text) && bs == EncodeAll(text) {
      RunEncodeAll(text);
    }
  }

  // ---------- Chunk boundaries do not matter ----------

  // Carries on from a decoding with further bytes.
  function Continue(d: Decoding, b: seq<Byte>): Decoding
    requires d.Ok? ==> ValidPending(d.pending)
  {
    if d.Invalid? then Invalid else Prepend(d.text, Run(d.pending, b))
  }

  lemma {:induction false} RunAppend(p: seq<Byte>, a: seq<Byte>, b: seq<Byte>)
    requires ValidPending(p)
    ensures Run(p, a + b) == Continue(Run(p, a), b)
    decreases |a|
  {
    if a == [] {
      assert a + b == b;
      assert Run(p, b).Ok? ==> [] + Run(p, b).text == Run(p, b).text;
    } else {
      assert (a + b)[1..] == a[1..] + b;
      var step := Step(p, a[0]);
      if step.More? {
        RunAppend(step.pending, a[1..], b);
      } else if step.Emit? {
        RunAppend([], a[1..], b);
        var first := Run([], a[1..]);
        if first.Ok? && Run(first.pending, b).Ok? {
          assert [step.cp] + (first.text + Run(first.pending, b).text)
              == ([step.cp] + first.text) + Run(first.pending, b).text;
        }
      }
    }
  }

  // Decoding chunk by chunk, as a decoder fed with `final=False` does.
  function FeedAll(p: seq<Byte>, chunks: seq<seq<Byte>>): Decoding
    requires ValidPending(p)
    decreases |chunks|
  {
    if chunks == [] then Ok([], p)
    else
      var first := Run(p, chunks[0]);
      if first.Invalid? then Invalid else Prepend(first.text, FeedAll(first.pending, chunks[1..]))
  }

  lemma {:induction false} FeedAllIsRun(p: seq<Byte>, chunks: seq<seq<Byte>>)
    requires ValidPending(p)
    ensures FeedAll(p, chunks) == Run(p, Flatten(chunks))
    decreases |chunks|
  {
    if chunks != [] {
      RunAppend(p, chunks[0], Flatten(chunks[1..]));
      if Run(p, chunks[0]).Ok? {
        FeedAllIsRun(Run(p, chunks[0]).pending, chunks[1..]);
      }
    }
  }

  // Any two ways of cutting the same bytes decode alike.
  lemma ChunkingIrrelevant(c1: seq<seq<Byte>>, c2: seq<seq<Byte>>)
    requires Flatten(c1) == Flatten(c2)
    ensures FeedAll([], c1) == FeedAll([], c2)
  {
    FeedAllIsRun([], c1);
    FeedAllIsRun([], c2);
  }

  lemma RunFrom(p: seq<Byte>, data: seq<Byte>, i: nat)
    requires ValidPending(p) && i < |data|
    ensures Run(p, data[i..]) == (var step := Step(p, data[i]);
                                  if step.Bad? then Invalid
                                  else if step.More? then Run(step.pending, data[i + 1..])
                                  else Prepend([step.cp], Run([], data[i + 1..])))
  {
    assert data[i..][1..] == data[i + 1..];
  }

  lemma PrependTwice(a: seq<int>, b: seq<int>, d: Decoding)
    ensures Prepend(a, Prepend(b, d)) == Prepend(a + b, d)
  {
    if d.Ok? {
      assert a + (b + d.text) == (a + b) + d.text;
    }
  }

  // The standard library's incremental decoder: one object, fed one chunk at a
  // time; a final call with bytes held back is an error.
  class IncrementalDecoder {
    var pending: seq<Byte>

    ghost predicate Valid() reads this { ValidPending(pending) }

    constructor ()
      ensures Valid() && pending == []
    {
      pending := [];
    }

    method Decode(data: seq<Byte>, final: bool) returns (text: Option<seq<int>>)
      requires Valid()
      modifies this
      ensures Valid()
      ensures var d := Run(old(pending), data);
              if d.Invalid? || (final && d.pending != []) then text == None
              else text == Some(d.text) && pending == d.pending
    {
      var out: seq<int> := [];
      var i := 0;
      while i < |data|
        invariant 0 <= i <= |data|
        invariant Valid()
        invariant Run(old(pending), data) == Prepend(out, Run(pending, data[i..]))
      {
        var step := Step(pending, data[i]);
        RunFrom(pending, data, i);
        if step.Bad? {
          return None;
        } else if step.More? {
          pending := step.pending;
        } else {
          PrependTwice(out, [step.cp], Run([], data[i + 1..]));
          out := out + [step.cp];
          pending := [];
        }
        i := i + 1;
      }
      assert out + [] == out;
      text := if final && pending != [] then None else Some(out);
    }
  }
}
