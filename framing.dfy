/** What the microcontroller does on the bus, as a trace of events: chip-select
    edges and single-byte exchanges. A framed exchange is one chip-select
    assertion, the byte exchanges, and one release. */
module Framing {

  datatype Option<T> = None | Some(value: T)

  /** One bus event. `CsLow` is `ADXL_CS_LOW`, `CsHigh` is `ADXL_CS_HIGH`
      (firmware/adxl362.h:56-57); `Tx` is one full-duplex byte exchange: the
      byte shifted out (MOSI) and the byte shifted in (MISO). */
  datatype Event = CsLow | Tx(mosi: bv8, miso: bv8) | CsHigh

  /** The byte exchanges of a frame, in order. */
  function Exchanges(mosi: seq<bv8>, miso: seq<bv8>): (ev: seq<Event>)
    requires |mosi| == |miso|
    ensures |ev| == |mosi|
    decreases |mosi|
  {
    if mosi == [] then []
    else Exchanges(mosi[..|mosi| - 1], miso[..|miso| - 1]) + [Tx(mosi[|mosi| - 1], miso[|miso| - 1])]
  }

  /** One framed exchange: chip select asserted, the bytes exchanged, chip select released. */
  function Frame(mosi: seq<bv8>, miso: seq<bv8>): seq<Event>
    requires |mosi| == |miso|
  {
    [CsLow] + Exchanges(mosi, miso) + [CsHigh]
  }

  /** The bytes sent in a trace, in order. */
  function Sent(t: seq<Event>): seq<bv8>
  {
    if t == [] then []
    else Sent(t[..|t| - 1]) + (if t[|t| - 1].Tx? then [t[|t| - 1].mosi] else [])
  }

  /** The bytes received in a trace, in order. */
  function Received(t: seq<Event>): seq<bv8>
  {
    if t == [] then []
    else Received(t[..|t| - 1]) + (if t[|t| - 1].Tx? then [t[|t| - 1].miso] else [])
  }

  /** How many times a trace asserts chip select. */
  function Assertions(t: seq<Event>): nat
  {
    if t == [] then 0 else Assertions(t[..|t| - 1]) + (if t[|t| - 1] == CsLow then 1 else 0)
  }

  /** How many times a trace releases chip select. */
  function Releases(t: seq<Event>): nat
  {
    if t == [] then 0 else Releases(t[..|t| - 1]) + (if t[|t| - 1] == CsHigh then 1 else 0)
  }

  /** The chip-select level (true: high, idle) after a trace that starts at
      level `start`, or None when some byte is exchanged while chip select is
      high, which the framing discipline forbids. */
  function LevelAfter(t: seq<Event>, start: bool): Option<bool>
  {
    if t == [] then Some(start)
    else
      match LevelAfter(t[..|t| - 1], start)
      case None => None
      case Some(high) =>
        match t[|t| - 1]
        case CsLow => Some(false)
        case CsHigh => Some(true)
        case Tx(_, _) => if high then None else Some(high)
  }

  /** The `i`-th event of a frame's exchanges is its `i`-th byte exchange. */
  lemma {:induction false} ExchangesAt(mosi: seq<bv8>, miso: seq<bv8>)
    requires |mosi| == |miso|
    ensures forall i :: 0 <= i < |mosi| ==> Exchanges(mosi, miso)[i] == Tx(mosi[i], miso[i])
    decreases |mosi|
  {
    if mosi != [] {
      var n := |mosi| - 1;
      ExchangesAt(mosi[..n], miso[..n]);
    }
  }

  /** A sequence followed by two more pieces, grouped either way. */
  lemma Append<T>(t: seq<T>, a: seq<T>, b: seq<T>)
    ensures t + a + b == t + (a + b)
  {
  }

  /** A non-empty sequence is its front followed by its last element. */
  lemma FrontLast<T>(s: seq<T>)
    requires s != []
    ensures s == s[..|s| - 1] + [s[|s| - 1]]
  {
  }

  /** The last exchange of a non-empty frame follows the ones before it. */
  lemma ExchangesLast(mosi: seq<bv8>, miso: seq<bv8>)
    requires |mosi| == |miso| && mosi != []
    ensures Exchanges(mosi, miso)
         == Exchanges(mosi[..|mosi| - 1], miso[..|mosi| - 1]) + [Tx(mosi[|mosi| - 1], miso[|mosi| - 1])]
  {
  }

  /** Appending one exchange to the bytes of a frame appends one event. */
  lemma ExchangesSnoc(mosi: seq<bv8>, miso: seq<bv8>, b: bv8, r: bv8)
    requires |mosi| == |miso|
    ensures Exchanges(mosi + [b], miso + [r]) == Exchanges(mosi, miso) + [Tx(b, r)]
  {
    assert (mosi + [b])[..|mosi|] == mosi;
    assert (miso + [r])[..|miso|] == miso;
  }

  /** Appending one event to a trace extends each counting function by that event alone. */
  lemma Snoc(t: seq<Event>, e: Event)
    ensures Sent(t + [e]) == Sent(t) + (if e.Tx? then [e.mosi] else [])
    ensures Received(t + [e]) == Received(t) + (if e.Tx? then [e.miso] else [])
    ensures Assertions(t + [e]) == Assertions(t) + (if e == CsLow then 1 else 0)
    ensures Releases(t + [e]) == Releases(t) + (if e == CsHigh then 1 else 0)
  {
    assert (t + [e])[..|t|] == t;
  }

  /** The four counting functions distribute over concatenation. */
  lemma {:induction false} Split(a: seq<Event>, b: seq<Event>)
    ensures Sent(a + b) == Sent(a) + Sent(b)
    ensures Received(a + b) == Received(a) + Received(b)
    ensures Assertions(a + b) == Assertions(a) + Assertions(b)
    ensures Releases(a + b) == Releases(a) + Releases(b)
    decreases |b|
  {
    if b == [] {
      assert a + b == a;
    } else {
      var b' := b[..|b| - 1];
      var e := b[|b| - 1];
      assert a + b == (a + b') + [e];
      assert b == b' + [e];
      Split(a, b');
      Snoc(a + b', e);
      Snoc(b', e);
    }
  }

  /** The byte exchanges of a frame carry exactly the bytes sent and received,
      and no chip-select edge. */
  lemma {:induction false} ExchangesShape(mosi: seq<bv8>, miso: seq<bv8>)
    requires |mosi| == |miso|
    ensures Sent(Exchanges(mosi, miso)) == mosi
    ensures Received(Exchanges(mosi, miso)) == miso
    ensures Assertions(Exchanges(mosi, miso)) == 0 && Releases(Exchanges(mosi, miso)) == 0
    decreases |mosi|
  {
    if mosi != [] {
      var n := |mosi| - 1;
      var front := Exchanges(mosi[..n], miso[..n]);
      ExchangesLast(mosi, miso);
      ExchangesShape(mosi[..n], miso[..n]);
      Snoc(front, Tx(mosi[n], miso[n]));
      FrontLast(mosi);
      FrontLast(miso);
    }
  }

  /** A frame's bytes on the wire are exactly the ones it was built from. */
  lemma FrameBytes(mosi: seq<bv8>, miso: seq<bv8>)
    requires |mosi| == |miso|
    ensures Sent(Frame(mosi, miso)) == mosi && Received(Frame(mosi, miso)) == miso
  {
    var body := Exchanges(mosi, miso);
    var open := [CsLow] + body;
    ExchangesShape(mosi, miso);
    assert Sent([CsLow]) == [] && Received([CsLow]) == [];
    Split([CsLow], body);
    assert Sent(open) == mosi && Received(open) == miso;
    Snoc(open, CsHigh);
    assert Frame(mosi, miso) == open + [CsHigh];
  }

  /** A frame asserts chip select exactly once and releases it exactly once. */
  lemma FrameEdges(mosi: seq<bv8>, miso: seq<bv8>)
    requires |mosi| == |miso|
    ensures Assertions(Frame(mosi, miso)) == 1 && Releases(Frame(mosi, miso)) == 1
  {
    var body := Exchanges(mosi, miso);
    var open := [CsLow] + body;
    ExchangesShape(mosi, miso);
    assert Assertions([CsLow]) == 1 && Releases([CsLow]) == 0;
    Split([CsLow], body);
    assert Assertions(open) == 1 && Releases(open) == 0;
    Snoc(open, CsHigh);
    assert Frame(mosi, miso) == open + [CsHigh];
  }

  /** A frame opens with the assertion, closes with the release, and holds
      nothing but byte exchanges in between. */
  lemma FrameLayout(mosi: seq<bv8>, miso: seq<bv8>)
    requires |mosi| == |miso|
    ensures var f := Frame(mosi, miso);
      && f[0] == CsLow && f[|f| - 1] == CsHigh
      && forall i :: 0 < i < |f| - 1 ==> f[i] == Tx(mosi[i - 1], miso[i - 1])
  {
    ExchangesAt(mosi, miso);
  }

  /** Exchanging bytes after an assertion keeps chip select low and breaks no rule. */
  lemma {:induction false} ExchangesWhileLow(t: seq<Event>, start: bool, mosi: seq<bv8>, miso: seq<bv8>)
    requires |mosi| == |miso|
    requires LevelAfter(t, start) != None
    ensures LevelAfter(t + [CsLow] + Exchanges(mosi, miso), start) == Some(false)
    decreases |mosi|
  {
    var u := t + [CsLow];
    assert u[..|u| - 1] == t;
    if mosi == [] {
      assert u + Exchanges(mosi, miso) == u;
    } else {
      var n := |mosi| - 1;
      var v := u + Exchanges(mosi, miso);
      assert v[..|v| - 1] == u + Exchanges(mosi[..n], miso[..n]);
      ExchangesWhileLow(t, start, mosi[..n], miso[..n]);
    }
  }

  /** Appending a whole frame to a trace that keeps the discipline keeps it,
      and leaves chip select high. */
  lemma FrameKeepsDiscipline(t: seq<Event>, start: bool, mosi: seq<bv8>, miso: seq<bv8>)
    requires |mosi| == |miso|
    requires LevelAfter(t, start) != None
    ensures LevelAfter(t + Frame(mosi, miso), start) == Some(true)
  {
    var u := t + [CsLow] + Exchanges(mosi, miso);
    ExchangesWhileLow(t, start, mosi, miso);
    assert t + Frame(mosi, miso) == u + [CsHigh];
    assert (u + [CsHigh])[..|u|] == u;
  }

  /** The exchanges of a frame of three bytes, one by one. */
  lemma Exchanges3(m0: bv8, m1: bv8, m2: bv8, r0: bv8, r1: bv8, r2: bv8)
    ensures Exchanges([m0, m1, m2], [r0, r1, r2]) == [Tx(m0, r0), Tx(m1, r1), Tx(m2, r2)]
  {
    ExchangesAt([m0, m1, m2], [r0, r1, r2]);
  }

  /** The events of a frame of three exchanges. */
  lemma FrameEvents3(m0: bv8, m1: bv8, m2: bv8, r0: bv8, r1: bv8, r2: bv8)
    ensures Frame([m0, m1, m2], [r0, r1, r2]) == [CsLow, Tx(m0, r0), Tx(m1, r1), Tx(m2, r2), CsHigh]
  {
    Exchanges3(m0, m1, m2, r0, r1, r2);
  }

  /** A frame of three exchanges as the bus records it, event by event. */
  lemma Frame3(t: seq<Event>, m0: bv8, m1: bv8, m2: bv8, r0: bv8, r1: bv8, r2: bv8)
    ensures t + [CsLow] + [Tx(m0, r0)] + [Tx(m1, r1)] + [Tx(m2, r2)] + [CsHigh]
         == t + Frame([m0, m1, m2], [r0, r1, r2])
  {
    FrameEvents3(m0, m1, m2, r0, r1, r2);
    Append(t, [CsLow], [Tx(m0, r0)]);
    assert [CsLow] + [Tx(m0, r0)] == [CsLow, Tx(m0, r0)];
    Append(t, [CsLow, Tx(m0, r0)], [Tx(m1, r1)]);
    assert [CsLow, Tx(m0, r0)] + [Tx(m1, r1)] == [CsLow, Tx(m0, r0), Tx(m1, r1)];
    Append(t, [CsLow, Tx(m0, r0), Tx(m1, r1)], [Tx(m2, r2)]);
    assert [CsLow, Tx(m0, r0), Tx(m1, r1)] + [Tx(m2, r2)] == [CsLow, Tx(m0, r0), Tx(m1, r1), Tx(m2, r2)];
    Append(t, [CsLow, Tx(m0, r0), Tx(m1, r1), Tx(m2, r2)], [CsHigh]);
    assert [CsLow, Tx(m0, r0), Tx(m1, r1), Tx(m2, r2)] + [CsHigh] == [CsLow, Tx(m0, r0), Tx(m1, r1), Tx(m2, r2), CsHigh];
  }

  /** The exchanges of a frame of four bytes, one by one. */
  lemma Exchanges4(m0: bv8, m1: bv8, m2: bv8, m3: bv8, r0: bv8, r1: bv8, r2: bv8, r3: bv8)
    ensures Exchanges([m0, m1, m2, m3], [r0, r1, r2, r3]) == [Tx(m0, r0), Tx(m1, r1), Tx(m2, r2), Tx(m3, r3)]
  {
    ExchangesAt([m0, m1, m2, m3], [r0, r1, r2, r3]);
  }

  /** The events of a frame of four exchanges. */
  lemma FrameEvents4(m0: bv8, m1: bv8, m2: bv8, m3: bv8, r0: bv8, r1: bv8, r2: bv8, r3: bv8)
    ensures Frame([m0, m1, m2, m3], [r0, r1, r2, r3]) == [CsLow, Tx(m0, r0), Tx(m1, r1), Tx(m2, r2), Tx(m3, r3), CsHigh]
  {
    Exchanges4(m0, m1, m2, m3, r0, r1, r2, r3);
  }

  /** A frame of four exchanges as the bus records it, event by event. */
  lemma Frame4(t: seq<Event>, m0: bv8, m1: bv8, m2: bv8, m3: bv8, r0: bv8, r1: bv8, r2: bv8, r3: bv8)
    ensures t + [CsLow] + [Tx(m0, r0)] + [Tx(m1, r1)] + [Tx(m2, r2)] + [Tx(m3, r3)] + [CsHigh]
         == t + Frame([m0, m1, m2, m3], [r0, r1, r2, r3])
  {
    FrameEvents4(m0, m1, m2, m3, r0, r1, r2, r3);
    Append(t, [CsLow], [Tx(m0, r0)]);
    assert [CsLow] + [Tx(m0, r0)] == [CsLow, Tx(m0, r0)];
    Append(t, [CsLow, Tx(m0, r0)], [Tx(m1, r1)]);
    assert [CsLow, Tx(m0, r0)] + [Tx(m1, r1)] == [CsLow, Tx(m0, r0), Tx(m1, r1)];
    Append(t, [CsLow, Tx(m0, r0), Tx(m1, r1)], [Tx(m2, r2)]);
    assert [CsLow, Tx(m0, r0), Tx(m1, r1)] + [Tx(m2, r2)] == [CsLow, Tx(m0, r0), Tx(m1, r1), Tx(m2, r2)];
    Append(t, [CsLow, Tx(m0, r0), Tx(m1, r1), Tx(m2, r2)], [Tx(m3, r3)]);
    assert [CsLow, Tx(m0, r0), Tx(m1, r1), Tx(m2, r2)] + [Tx(m3, r3)] == [CsLow, Tx(m0, r0), Tx(m1, r1), Tx(m2, r2), Tx(m3, r3)];
    Append(t, [CsLow, Tx(m0, r0), Tx(m1, r1), Tx(m2, r2), Tx(m3, r3)], [CsHigh]);
    assert [CsLow, Tx(m0, r0), Tx(m1, r1), Tx(m2, r2), Tx(m3, r3)] + [CsHigh] == [CsLow, Tx(m0, r0), Tx(m1, r1), Tx(m2, r2), Tx(m3, r3), CsHigh];
  }

  /** The exchanges of a frame of five bytes, one by one. */
  lemma Exchanges5(m0: bv8, m1: bv8, m2: bv8, m3: bv8, m4: bv8, r0: bv8, r1: bv8, r2: bv8, r3: bv8, r4: bv8)
    ensures Exchanges([m0, m1, m2, m3, m4], [r0, r1, r2, r3, r4]) == [Tx(m0, r0), Tx(m1, r1), Tx(m2, r2), Tx(m3, r3), Tx(m4, r4)]
  {
    ExchangesAt([m0, m1, m2, m3, m4], [r0, r1, r2, r3, r4]);
  }

  /** The events of a frame of five exchanges. */
  lemma FrameEvents5(m0: bv8, m1: bv8, m2: bv8, m3: bv8, m4: bv8, r0: bv8, r1: bv8, r2: bv8, r3: bv8, r4: bv8)
    ensures Frame([m0, m1, m2, m3, m4], [r0, r1, r2, r3, r4]) == [CsLow, Tx(m0, r0), Tx(m1, r1), Tx(m2, r2), Tx(m3, r3), Tx(m4, r4), CsHigh]
  {
    Exchanges5(m0, m1, m2, m3, m4, r0, r1, r2, r3, r4);
  }

  /** A frame of five exchanges as the bus records it, event by event. */
  lemma Frame5(t: seq<Event>, m0: bv8, m1: bv8, m2: bv8, m3: bv8, m4: bv8, r0: bv8, r1: bv8, r2: bv8, r3: bv8, r4: bv8)
    ensures t + [CsLow] + [Tx(m0, r0)] + [Tx(m1, r1)] + [Tx(m2, r2)] + [Tx(m3, r3)] + [Tx(m4, r4)] + [CsHigh]
         == t + Frame([m0, m1, m2, m3, m4], [r0, r1, r2, r3, r4])
  {
    FrameEvents5(m0, m1, m2, m3, m4, r0, r1, r2, r3, r4);
    Append(t, [CsLow], [Tx(m0, r0)]);
    assert [CsLow] + [Tx(m0, r0)] == [CsLow, Tx(m0, r0)];
    Append(t, [CsLow, Tx(m0, r0)], [Tx(m1, r1)]);
    assert [CsLow, Tx(m0, r0)] + [Tx(m1, r1)] == [CsLow, Tx(m0, r0), Tx(m1, r1)];
    Append(t, [CsLow, Tx(m0, r0), Tx(m1, r1)], [Tx(m2, r2)]);
    assert [CsLow, Tx(m0, r0), Tx(m1, r1)] + [Tx(m2, r2)] == [CsLow, Tx(m0, r0), Tx(m1, r1), Tx(m2, r2)];
    Append(t, [CsLow, Tx(m0, r0), Tx(m1, r1), Tx(m2, r2)], [Tx(m3, r3)]);
    assert [CsLow, Tx(m0, r0), Tx(m1, r1), Tx(m2, r2)] + [Tx(m3, r3)] == [CsLow, Tx(m0, r0), Tx(m1, r1), Tx(m2, r2), Tx(m3, r3)];
    Append(t, [CsLow, Tx(m0, r0), Tx(m1, r1), Tx(m2, r2), Tx(m3, r3)], [Tx(m4, r4)]);
    assert [CsLow, Tx(m0, r0), Tx(m1, r1), Tx(m2, r2), Tx(m3, r3)] + [Tx(m4, r4)] == [CsLow, Tx(m0, r0), Tx(m1, r1), Tx(m2, r2), Tx(m3, r3), Tx(m4, r4)];
    Append(t, [CsLow, Tx(m0, r0), Tx(m1, r1), Tx(m2, r2), Tx(m3, r3), Tx(m4, r4)], [CsHigh]);
    assert [CsLow, Tx(m0, r0), Tx(m1, r1), Tx(m2, r2), Tx(m3, r3), Tx(m4, r4)] + [CsHigh] == [CsLow, Tx(m0, r0), Tx(m1, r1), Tx(m2, r2), Tx(m3, r3), Tx(m4, r4), CsHigh];
  }

  /** The exchanges of a frame of eight bytes, one by one. */
  lemma Exchanges8(m0: bv8, m1: bv8, m2: bv8, m3: bv8, m4: bv8, m5: bv8, m6: bv8, m7: bv8, r0: bv8, r1: bv8, r2: bv8, r3: bv8, r4: bv8, r5: bv8, r6: bv8, r7: bv8)
    ensures Exchanges([m0, m1, m2, m3, m4, m5, m6, m7], [r0, r1, r2, r3, r4, r5, r6, r7]) == [Tx(m0, r0), Tx(m1, r1), Tx(m2, r2), Tx(m3, r3), Tx(m4, r4), Tx(m5, r5), Tx(m6, r6), Tx(m7, r7)]
  {
    ExchangesAt([m0, m1, m2, m3, m4, m5, m6, m7], [r0, r1, r2, r3, r4, r5, r6, r7]);
  }

  /** The events of a frame of eight exchanges. */
  lemma FrameEvents8(m0: bv8, m1: bv8, m2: bv8, m3: bv8, m4: bv8, m5: bv8, m6: bv8, m7: bv8, r0: bv8, r1: bv8, r2: bv8, r3: bv8, r4: bv8, r5: bv8, r6: bv8, r7: bv8)
    ensures Frame([m0, m1, m2, m3, m4, m5, m6, m7], [r0, r1, r2, r3, r4, r5, r6, r7]) == [CsLow, Tx(m0, r0), Tx(m1, r1), Tx(m2, r2), Tx(m3, r3), Tx(m4, r4), Tx(m5, r5), Tx(m6, r6), Tx(m7, r7), CsHigh]
  {
    Exchanges8(m0, m1, m2, m3, m4, m5, m6, m7, r0, r1, r2, r3, r4, r5, r6, r7);
  }

  /** A frame of eight exchanges as the bus records it, event by event. */
  lemma Frame8(t: seq<Event>, m0: bv8, m1: bv8, m2: bv8, m3: bv8, m4: bv8, m5: bv8, m6: bv8, m7: bv8, r0: bv8, r1: bv8, r2: bv8, r3: bv8, r4: bv8, r5: bv8, r6: bv8, r7: bv8)
    ensures t + [CsLow] + [Tx(m0, r0)] + [Tx(m1, r1)] + [Tx(m2, r2)] + [Tx(m3, r3)] + [Tx(m4, r4)] + [Tx(m5, r5)] + [Tx(m6, r6)] + [Tx(m7, r7)] + [CsHigh]
         == t + Frame([m0, m1, m2, m3, m4, m5, m6, m7], [r0, r1, r2, r3, r4, r5, r6, r7])
  {
    FrameEvents8(m0, m1, m2, m3, m4, m5, m6, m7, r0, r1, r2, r3, r4, r5, r6, r7);
    Append(t, [CsLow], [Tx(m0, r0)]);
    assert [CsLow] + [Tx(m0, r0)] == [CsLow, Tx(m0, r0)];
    Append(t, [CsLow, Tx(m0, r0)], [Tx(m1, r1)]);
    assert [CsLow, Tx(m0, r0)] + [Tx(m1, r1)] == [CsLow, Tx(m0, r0), Tx(m1, r1)];
    Append(t, [CsLow, Tx(m0, r0), Tx(m1, r1)], [Tx(m2, r2)]);
    assert [CsLow, Tx(m0, r0), Tx(m1, r1)] + [Tx(m2, r2)] == [CsLow, Tx(m0, r0), Tx(m1, r1), Tx(m2, r2)];
    Append(t, [CsLow, Tx(m0, r0), Tx(m1, r1), Tx(m2, r2)], [Tx(m3, r3)]);
    assert [CsLow, Tx(m0, r0), Tx(m1, r1), Tx(m2, r2)] + [Tx(m3, r3)] == [CsLow, Tx(m0, r0), Tx(m1, r1), Tx(m2, r2), Tx(m3, r3)];
    Append(t, [CsLow, Tx(m0, r0), Tx(m1, r1), Tx(m2, r2), Tx(m3, r3)], [Tx(m4, r4)]);
    assert [CsLow, Tx(m0, r0), Tx(m1, r1), Tx(m2, r2), Tx(m3, r3)] + [Tx(m4, r4)] == [CsLow, Tx(m0, r0), Tx(m1, r1), Tx(m2, r2), Tx(m3, r3), Tx(m4, r4)];
    Append(t, [CsLow, Tx(m0, r0), Tx(m1, r1), Tx(m2, r2), Tx(m3, r3), Tx(m4, r4)], [Tx(m5, r5)]);
    assert [CsLow, Tx(m0, r0), Tx(m1, r1), Tx(m2, r2), Tx(m3, r3), Tx(m4, r4)] + [Tx(m5, r5)] == [CsLow, Tx(m0, r0), Tx(m1, r1), Tx(m2, r2), Tx(m3, r3), Tx(m4, r4), Tx(m5, r5)];
    Append(t, [CsLow, Tx(m0, r0), Tx(m1, r1), Tx(m2, r2), Tx(m3, r3), Tx(m4, r4), Tx(m5, r5)], [Tx(m6, r6)]);
    assert [CsLow, Tx(m0, r0), Tx(m1, r1), Tx(m2, r2), Tx(m3, r3), Tx(m4, r4), Tx(m5, r5)] + [Tx(m6, r6)] == [CsLow, Tx(m0, r0), Tx(m1, r1), Tx(m2, r2), Tx(m3, r3), Tx(m4, r4), Tx(m5, r5), Tx(m6, r6)];
    Append(t, [CsLow, Tx(m0, r0), Tx(m1, r1), Tx(m2, r2), Tx(m3, r3), Tx(m4, r4), Tx(m5, r5), Tx(m6, r6)], [Tx(m7, r7)]);
    assert [CsLow, Tx(m0, r0), Tx(m1, r1), Tx(m2, r2), Tx(m3, r3), Tx(m4, r4), Tx(m5, r5), Tx(m6, r6)] + [Tx(m7, r7)] == [CsLow, Tx(m0, r0), Tx(m1, r1), Tx(m2, r2), Tx(m3, r3), Tx(m4, r4), Tx(m5, r5), Tx(m6, r6), Tx(m7, r7)];
    Append(t, [CsLow, Tx(m0, r0), Tx(m1, r1), Tx(m2, r2), Tx(m3, r3), Tx(m4, r4), Tx(m5, r5), Tx(m6, r6), Tx(m7, r7)], [CsHigh]);
    assert [CsLow, Tx(m0, r0), Tx(m1, r1), Tx(m2, r2), Tx(m3, r3), Tx(m4, r4), Tx(m5, r5), Tx(m6, r6), Tx(m7, r7)] + [CsHigh] == [CsLow, Tx(m0, r0), Tx(m1, r1), Tx(m2, r2), Tx(m3, r3), Tx(m4, r4), Tx(m5, r5), Tx(m6, r6), Tx(m7, r7), CsHigh];
  }
}
