/** Filling the image: a buffer of the size computed beforehand is cleared and written section by
    section (`generate_prog` in comp/impl_comp.cpp). */
module ImageWriter {
  import opened Bytes
  import opened ImageFormat

  /** The buffer holds some bytes and is clear behind them. */
  ghost predicate Filled(a: array<Byte>, done: seq<Byte>)
    reads a
  {
    |done| <= a.Length && a[..] == done + Zeros(a.Length - |done|)
  }

  method Write(a: array<Byte>, ghost done: seq<Byte>, at: nat, bs: seq<Byte>)
    requires Filled(a, done) && at == |done| && at + |bs| <= a.Length
    modifies a
    ensures Filled(a, done + bs)
  {
    var j := 0;
    ghost var before := a[..];
    while j < |bs|
      invariant j <= |bs| && a[..] == before[..at] + bs[..j] + before[at + j..]
    {
      a[at + j] := bs[j];
      assert bs[..j + 1] == bs[..j] + [bs[j]];
      j := j + 1;
    }
    assert bs[..|bs|] == bs && before[..at] == done;
    assert before[at + |bs|..] == Zeros(a.Length - |done| - |bs|);
  }

  lemma {:induction false} PutAllNext<T>(xs: seq<T>, put: T -> seq<Byte>, k: nat)
    requires k < |xs|
    ensures PutAll(xs[..k + 1], put) == PutAll(xs[..k], put) + put(xs[k])
    decreases k
  {
    if k == 0 {
      assert xs[..1] == [xs[0]] && put(xs[0]) + [] == [] + put(xs[0]);
    } else {
      assert xs[..k + 1][0] == xs[..k][0] == xs[0];
      assert xs[..k + 1][1..] == xs[1..][..k] && xs[..k][1..] == xs[1..][..k - 1];
      PutAllNext(xs[1..], put, k - 1);
      assert put(xs[0]) + (PutAll(xs[1..][..k - 1], put) + put(xs[k])) == put(xs[0]) + PutAll(xs[1..][..k - 1], put) + put(xs[k]);
    }
  }

  lemma PutAllBound<T>(xs: seq<T>, put: T -> seq<Byte>, k: nat)
    requires k <= |xs|
    ensures |PutAll(xs[..k], put)| <= |PutAll(xs, put)|
    decreases |xs| - k
  {
    if k < |xs| {
      PutAllNext(xs, put, k);
      PutAllBound(xs, put, k + 1);
    } else {
      assert xs[..k] == xs;
    }
  }

  /** Records one behind the other. */
  method WriteAll<T>(a: array<Byte>, ghost done: seq<Byte>, at: nat, xs: seq<T>, put: T -> seq<Byte>) returns (end: nat)
    requires Filled(a, done) && at == |done| && at + |PutAll(xs, put)| <= a.Length
    modifies a
    ensures Filled(a, done + PutAll(xs, put)) && end == |done| + |PutAll(xs, put)|
  {
    hide Filled;
    end := at;
    var i := 0;
    assert done + PutAll(xs[..0], put) == done;
    while i < |xs|
      invariant i <= |xs| && end == |done + PutAll(xs[..i], put)|
      invariant Filled(a, done + PutAll(xs[..i], put))
    {
      PutAllNext(xs, put, i);
      PutAllBound(xs, put, i + 1);
      var bs := put(xs[i]);
      Write(a, done + PutAll(xs[..i], put), end, bs);
      assert done + PutAll(xs[..i], put) + bs == done + PutAll(xs[..i + 1], put);
      end := end + |bs|;
      i := i + 1;
    }
    assert xs[..|xs|] == xs;
  }

  /** The clear bytes behind a section pad it. */
  lemma PadSection(a: array<Byte>, done: seq<Byte>, bs: seq<Byte>)
    requires Filled(a, done + bs) && |done| + Align(|bs|) <= a.Length
    ensures Filled(a, done + Padded(bs))
  {
    var pad := Align(|bs|) - |bs|;
    assert Zeros(a.Length - |done + bs|) == Zeros(pad) + Zeros(a.Length - |done| - Align(|bs|));
    assert done + bs + Zeros(pad) == done + Padded(bs);
  }

  /** A section of records, and the start of the next one. */
  method WriteSection<T>(a: array<Byte>, ghost done: seq<Byte>, at: nat, xs: seq<T>, put: T -> seq<Byte>, size: nat)
    returns (next: nat)
    requires Filled(a, done) && at == |done| && size == |PutAll(xs, put)| && at + Align(size) <= a.Length
    modifies a
    ensures Filled(a, done + Padded(PutAll(xs, put))) && next == |done + Padded(PutAll(xs, put))|
  {
    hide Filled, PutAll, Align;
    var end := WriteAll(a, done, at, xs, put);
    PadSection(a, done, PutAll(xs, put));
    next := at + Align(size);
  }

  /** What the first five sections are. */
  function Body(p: Image): seq<Byte>
    requires Writable(p)
  {
    PutHeader(p) + Padded(PutAll(p.funs, PutFunction)) + Padded(PutAll(p.vars, PutValue))
    + Padded(PutAll(p.code, PutInstruction)) + PutAll(p.objects, PutPaddedObject)
  }

  /** The first five sections. */
  method WriteBody(a: array<Byte>, p: Image) returns (at: nat, ghost done: seq<Byte>)
    requires Writable(p) && a.Length == ImageSize(p) && Filled(a, [])
    modifies a
    ensures done == Body(p) && Filled(a, done) && at == |done|
  {
    SectionSizes(p);
    hide Filled, PutAll, PutHeader, Align, DataSize, SymbolsSize, Writable;
    var header := PutHeader(p);
    Write(a, [], 0, header);
    assert [] + header == header;
    done := header;
    at := HEADER_SIZE;
    at := WriteSection(a, done, at, p.funs, PutFunction, 12 * |p.funs|);
    done := done + Padded(PutAll(p.funs, PutFunction));
    at := WriteSection(a, done, at, p.vars, PutValue, 16 * |p.vars|);
    done := done + Padded(PutAll(p.vars, PutValue));
    at := WriteSection(a, done, at, p.code, PutInstruction, 12 * |p.code|);
    done := done + Padded(PutAll(p.code, PutInstruction));
    at := WriteAll(a, done, at, p.objects, PutPaddedObject);
    done := done + PutAll(p.objects, PutPaddedObject);
  }

  lemma BodySize(p: Image)
    requires Writable(p)
    ensures |Body(p)| + Align(12 * |p.relocs|) + SymbolsSize(p.symbols) + Align(12 * |p.infos|) == ImageSize(p)
    ensures |PutAll(p.relocs, PutRelocation)| == 12 * |p.relocs| && |PutAll(p.symbols, PutPaddedSymbol)| == SymbolsSize(p.symbols)
    ensures |PutAll(p.infos, PutInfo)| == 12 * |p.infos|
  {
    SectionSizes(p);
    hide PutHeader, PutAll, Align, DataSize, SymbolsSize, Writable;
  }

  lemma PaddedSize(bs: seq<Byte>)
    ensures |Padded(bs)| == Align(|bs|)
  {
  }

  /** The last three sections. */
  method WriteEnd(a: array<Byte>, p: Image, start: nat) returns (ghost done: seq<Byte>)
    requires Writable(p) && a.Length == ImageSize(p) && Filled(a, Body(p)) && start == |Body(p)|
    modifies a
    ensures Filled(a, done)
    ensures done == Body(p) + Padded(PutAll(p.relocs, PutRelocation)) + PutAll(p.symbols, PutPaddedSymbol) + Padded(PutAll(p.infos, PutInfo))
  {
    BodySize(p);
    hide *;
    PaddedSize(PutAll(p.relocs, PutRelocation));
    done := Body(p);
    var at := WriteSection(a, done, start, p.relocs, PutRelocation, 12 * |p.relocs|);
    done := done + Padded(PutAll(p.relocs, PutRelocation));
    at := WriteAll(a, done, at, p.symbols, PutPaddedSymbol);
    done := done + PutAll(p.symbols, PutPaddedSymbol);
    at := WriteSection(a, done, at, p.infos, PutInfo, 12 * |p.infos|);
    done := done + Padded(PutAll(p.infos, PutInfo));
  }

  /** The image in a buffer of exactly the size computed beforehand. */
  method GenerateImage(p: Image) returns (a: array<Byte>)
    requires Writable(p)
    ensures fresh(a) && a.Length == ImageSize(p) && a[..] == PutImage(p)
  {
    a := new Byte[ImageSize(p)](_ => 0);
    assert Filled(a, []) by { assert a[..] == [] + Zeros(a.Length); }
    hide *;
    ImageFillsSize(p);
    SectionsJoined(p);
    var at, body := WriteBody(a, p);
    var done := WriteEnd(a, p, at);
    WholeBuffer(a, done);
  }

  lemma WholeBuffer(a: array<Byte>, done: seq<Byte>)
    requires Filled(a, done) && |done| == a.Length
    ensures a[..] == done
  {
  }

  lemma SectionsJoined(p: Image)
    requires Writable(p)
    ensures Body(p) + Padded(PutAll(p.relocs, PutRelocation)) + PutAll(p.symbols, PutPaddedSymbol) + Padded(PutAll(p.infos, PutInfo))
            == PutImage(p)
  {
    hide PutHeader, PutAll, Padded;
  }
}
