/** Cutting a batch into chunks that fit one message. */
module SplitBatch {

  type Payload = seq<bv8>

  /** What every chunk of a batch repeats. */
  datatype Header = Header(batchID: string, sourceID: string, tenant: string, provider: string, receivedAt: int)

  datatype RawBatch = RawBatch(header: Header, records: seq<Payload>)

  const ENVELOPE := 512

  /** The size a record is taken to have once encoded. */
  function Estimate(rec: Payload): nat {
    |rec| * 4 / 3 + 8
  }

  /** The length of n bytes in base64 with padding (section 4 of RFC 4648). */
  function Base64Length(n: nat): nat {
    4 * ((n + 2) / 3)
  }

  /** The estimate leaves room for the base64 text, its quotes and a comma, and at most five bytes more. */
  lemma EstimateBounds(rec: Payload)
    ensures Base64Length(|rec|) + 3 <= Estimate(rec) <= Base64Length(|rec|) + 8
  {
    var k := |rec| / 3;
    assert |rec| == 3 * k || |rec| == 3 * k + 1 || |rec| == 3 * k + 2;
  }

  function Size(records: seq<Payload>): nat {
    if records == [] then ENVELOPE else Size(records[..|records| - 1]) + Estimate(records[|records| - 1])
  }

  /** The encoded records: base64 texts in quotes, each with a comma. */
  function Encoded(records: seq<Payload>): nat {
    if records == [] then 0
    else Encoded(records[..|records| - 1]) + Base64Length(|records[|records| - 1]|) + 3
  }

  /** A chunk's size is that of its encoded records and the envelope, and at most five bytes a record more. */
  lemma {:induction false} SizeBounds(records: seq<Payload>)
    ensures ENVELOPE + Encoded(records) <= Size(records) <= ENVELOPE + Encoded(records) + 5 * |records|
  {
    if records != [] {
      SizeBounds(records[..|records| - 1]);
      EstimateBounds(records[|records| - 1]);
    }
  }

  function Flatten(chunks: seq<seq<Payload>>): seq<Payload> {
    if chunks == [] then [] else chunks[0] + Flatten(chunks[1..])
  }

  predicate Fits(records: seq<Payload>, limit: int) {
    records != [] && (|records| > 1 ==> Size(records) <= limit)
  }

  /** `next` could not have taken its first record into `records`. */
  predicate Full(records: seq<Payload>, next: seq<Payload>, limit: int) {
    next != [] && Size(records) + Estimate(next[0]) > limit
  }

  /** The records in order, no chunk empty, none over the limit unless it is a single record, and
      each as long as it can be. */
  predicate IsSplit(records: seq<Payload>, chunks: seq<seq<Payload>>, limit: int) {
    && Flatten(chunks) == records
    && (forall i | 0 <= i < |chunks| :: Fits(chunks[i], limit))
    && forall i | 0 < i < |chunks| :: Full(chunks[i - 1], chunks[i], limit)
  }

  lemma {:induction false} FlattenSnoc(chunks: seq<seq<Payload>>, c: seq<Payload>)
    ensures Flatten(chunks + [c]) == Flatten(chunks) + c
  {
    if chunks == [] {
      assert [c][1..] == [];
    } else {
      FlattenSnoc(chunks[1..], c);
      assert (chunks + [c])[1..] == chunks[1..] + [c];
      assert (chunks + [c])[0] == chunks[0];
    }
  }

  /** The finished chunks and the one being filled hold the records so far. */
  ghost predicate Splitting(records: seq<Payload>, done: seq<seq<Payload>>, current: seq<Payload>, limit: int) {
    && Flatten(done) + current == records
    && (current == [] <==> records == [])
    && (current == [] ==> done == [])
    && (current != [] ==> Fits(current, limit) && (done != [] ==> Full(done[|done| - 1], current, limit)))
    && (forall i | 0 <= i < |done| :: Fits(done[i], limit))
    && forall i | 0 < i < |done| :: Full(done[i - 1], done[i], limit)
  }

  lemma SizeSnoc(records: seq<Payload>, rec: Payload)
    ensures Size(records + [rec]) == Size(records) + Estimate(rec)
  {
    assert (records + [rec])[..|records|] == records;
  }

  /** The record joins the current chunk. */
  lemma Grow(records: seq<Payload>, done: seq<seq<Payload>>, current: seq<Payload>, limit: int, rec: Payload)
    requires Splitting(records, done, current, limit) && (current != [] ==> Size(current) + Estimate(rec) <= limit)
    ensures Splitting(records + [rec], done, current + [rec], limit)
  {
    SizeSnoc(current, rec);
    if current != [] {
      assert (current + [rec])[0] == current[0];
    }
  }

  /** The current chunk is closed and the record starts the next one. */
  lemma StartNext(records: seq<Payload>, done: seq<seq<Payload>>, current: seq<Payload>, limit: int, rec: Payload)
    requires Splitting(records, done, current, limit) && current != [] && Size(current) + Estimate(rec) > limit
    ensures Splitting(records + [rec], done + [current], [rec], limit)
  {
    FlattenSnoc(done, current);
    var more := done + [current];
    forall i | 0 < i < |more|
      ensures Full(more[i - 1], more[i], limit)
    {
      if i < |done| {
        assert Full(done[i - 1], done[i], limit);
      }
    }
  }

  lemma Finished(records: seq<Payload>, done: seq<seq<Payload>>, current: seq<Payload>, limit: int)
    requires Splitting(records, done, current, limit) && records != []
    ensures IsSplit(records, done + [current], limit)
  {
    FlattenSnoc(done, current);
    var all := done + [current];
    forall i | 0 < i < |all|
      ensures Full(all[i - 1], all[i], limit)
    {
      if i < |done| {
        assert Full(done[i - 1], done[i], limit);
      }
    }
  }

  function Bodies(chunks: seq<RawBatch>): (bodies: seq<seq<Payload>>)
    ensures |bodies| == |chunks|
  {
    seq(|chunks|, i requires 0 <= i < |chunks| => chunks[i].records)
  }

  lemma Starting(limit: int)
    ensures Splitting([], Bodies([]), [], limit) && Size([]) == ENVELOPE
  {
  }

  lemma BodiesSnoc(chunks: seq<RawBatch>, b: RawBatch)
    ensures Bodies(chunks + [b]) == Bodies(chunks) + [b.records]
  {
  }

  method Split(batch: RawBatch, limit: int) returns (chunks: seq<RawBatch>)
    ensures batch.records == [] ==> chunks == [batch]
    ensures forall i | 0 <= i < |chunks| :: chunks[i].header == batch.header
    ensures batch.records != [] ==> IsSplit(batch.records, Bodies(chunks), limit)
  {
    hide Splitting, IsSplit, Bodies, Size, Estimate;
    if |batch.records| == 0 {
      return [batch];
    }
    Starting(limit);
    assert batch.records[..0] == [];
    chunks := [];
    var current, size := [], ENVELOPE;
    for k := 0 to |batch.records|
      invariant forall i | 0 <= i < |chunks| :: chunks[i].header == batch.header
      invariant Splitting(batch.records[..k], Bodies(chunks), current, limit) && size == Size(current)
    {
      var rec := batch.records[k];
      var recSize := Estimate(rec);
      assert batch.records[..k + 1] == batch.records[..k] + [rec];
      if size + recSize > limit && |current| > 0 {
        StartNext(batch.records[..k], Bodies(chunks), current, limit, rec);
        BodiesSnoc(chunks, RawBatch(batch.header, current));
        chunks := chunks + [RawBatch(batch.header, current)];
        current, size := [], ENVELOPE;
        SizeSnoc([], rec);
        assert [] + [rec] == [rec];
      } else {
        Grow(batch.records[..k], Bodies(chunks), current, limit, rec);
        SizeSnoc(current, rec);
      }
      current, size := current + [rec], size + recSize;
    }
    assert batch.records[..|batch.records|] == batch.records;
    Finished(batch.records, Bodies(chunks), current, limit);
    BodiesSnoc(chunks, RawBatch(batch.header, current));
    chunks := chunks + [RawBatch(batch.header, current)];
  }

  lemma {:induction false} SizeGrows(records: seq<Payload>, n: nat)
    requires n <= |records|
    ensures Size(records[..n]) <= Size(records)
  {
    var m := |records| - 1;
    if n <= m {
      assert records[..m][..n] == records[..n];
      SizeGrows(records[..m], n);
    } else {
      assert records[..n] == records;
    }
  }

  /** A first chunk cannot be shorter than another split's first chunk. */
  lemma FirstNotShorter(records: seq<Payload>, a: seq<seq<Payload>>, b: seq<seq<Payload>>, limit: int)
    requires IsSplit(records, a, limit) && IsSplit(records, b, limit) && a != [] && b != []
    ensures |a[0]| >= |b[0]|
  {
    var n := |a[0]|;
    assert a[0] == records[..n] && b[0] == records[..|b[0]|];
    if |a| == 1 {
      assert a[1..] == [] && Flatten([]) == [] && a[0] + [] == a[0];
      assert Flatten(a) == a[0] + Flatten(a[1..]);
    } else {
      assert Fits(a[1], limit) && Full(a[0], a[1], limit);
      assert Flatten(a[1..]) == a[1] + Flatten(a[1..][1..]);
      assert a[1][0] == records[n];
      SizeSnoc(records[..n], records[n]);
      assert records[..n + 1] == records[..n] + [records[n]];
      if n + 1 <= |b[0]| {
        assert b[0][..n + 1] == records[..n + 1];
        SizeGrows(b[0], n + 1);
      }
    }
  }

  lemma TailIsSplit(records: seq<Payload>, chunks: seq<seq<Payload>>, limit: int)
    requires IsSplit(records, chunks, limit) && chunks != []
    ensures |chunks[0]| <= |records| && IsSplit(records[|chunks[0]|..], chunks[1..], limit)
  {
    forall i | 0 < i < |chunks[1..]|
      ensures Full(chunks[1..][i - 1], chunks[1..][i], limit)
    {
      assert Full(chunks[i], chunks[i + 1], limit);
    }
  }

  lemma EmptySplit(records: seq<Payload>, chunks: seq<seq<Payload>>, limit: int)
    requires IsSplit(records, chunks, limit)
    ensures chunks == [] <==> records == []
  {
    if chunks != [] {
      assert Fits(chunks[0], limit);
    }
  }

  /** These properties leave no choice: there is one way to split. */
  lemma {:induction false} SplitIsUnique(records: seq<Payload>, a: seq<seq<Payload>>, b: seq<seq<Payload>>, limit: int)
    requires IsSplit(records, a, limit) && IsSplit(records, b, limit)
    ensures a == b
    decreases |a|
  {
    if a == [] || b == [] {
      EmptySplit(records, a, limit);
      EmptySplit(records, b, limit);
    } else {
      FirstNotShorter(records, a, b, limit);
      FirstNotShorter(records, b, a, limit);
      assert a[0] == records[..|a[0]|] && b[0] == records[..|b[0]|];
      TailIsSplit(records, a, limit);
      TailIsSplit(records, b, limit);
      SplitIsUnique(records[|a[0]|..], a[1..], b[1..], limit);
      assert a == [a[0]] + a[1..] && b == [b[0]] + b[1..];
    }
  }
}
