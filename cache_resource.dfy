/**
 * The read API over the cache: argument validation for value and offset
 * lookups, and the newline-separated listings of keys and values.
 */
module CacheResource {
  import opened KafkaModel

  /**
   * The read side of `KafkaCache`: a value lookup (null when absent), the
   * current-offset lookup (a possibly null `Long`), and the key and value
   * iterators, each as the sequence it yields.
   */
  datatype KafkaCache = KafkaCache(
    getValue: string -> Option<Bytes>,
    getCurrentOffset: (string, int) -> Option<int>,
    keys: seq<string>,
    values: seq<Bytes>)

  /** The JAX-RS exceptions the resource throws. */
  datatype HttpError = BadRequest(message: string) | NotFound

  datatype Response<T> = Ok(body: T) | Error(error: HttpError)

  const NullKey := "Request key can not be null"
  const EmptyKey := "Request key can not be empty"
  const NullTopic := "Topic can not be null"
  const EmptyTopic := "Topic can not be a zero length string"
  const NullPartition := "Partition can not be null"

  /**
   * `getCacheValue`. The emptiness test in the source compares references,
   * so whether an empty key is refused depends on whether the request's
   * string is the interned literal; `keyIsEmptyLiteral` says whether it is.
   */
  function GetCacheValue(cache: KafkaCache, key: Option<string>, keyIsEmptyLiteral: bool): (r: Response<Bytes>)
    requires keyIsEmptyLiteral ==> key == Some("")
    ensures key.None? ==> r == Error(BadRequest(NullKey))
    ensures key.Some? && keyIsEmptyLiteral ==> r == Error(BadRequest(EmptyKey))
    ensures key.Some? && !keyIsEmptyLiteral ==>
              (r.Ok? <==> cache.getValue(key.value).Some?) &&
              (r.Ok? ==> r.body == cache.getValue(key.value).value) &&
              (r.Error? ==> r.error == NotFound)
  {
    if key.None? then Error(BadRequest(NullKey))
    else if keyIsEmptyLiteral then Error(BadRequest(EmptyKey))
    else
      var value := cache.getValue(key.value);
      if value.None? then Error(NotFound) else Ok(value.value)
  }

  /** The model makes no promise about empty keys: one that is not the interned literal is looked up like any other. */
  lemma EmptyKeyMayBeLookedUp(cache: KafkaCache)
    ensures GetCacheValue(cache, Some(""), false) ==
            if cache.getValue("").Some? then Ok(cache.getValue("").value) else Error(NotFound)
  {
  }

  /** A request that returns a value got exactly the cache's non-null value for that key. */
  lemma CacheValueOnlyFromCache(cache: KafkaCache, key: Option<string>, keyIsEmptyLiteral: bool)
    requires keyIsEmptyLiteral ==> key == Some("")
    ensures GetCacheValue(cache, key, keyIsEmptyLiteral).Ok? <==>
              key.Some? && !keyIsEmptyLiteral && cache.getValue(key.value).Some?
    ensures GetCacheValue(cache, key, keyIsEmptyLiteral).Ok? ==>
              cache.getValue(key.value) == Some(GetCacheValue(cache, key, keyIsEmptyLiteral).body)
  {
  }

  /**
   * `getCurrentOffset`: a null topic, then an empty topic, then a null
   * partition are refused, in that order; otherwise the cache's answer is
   * returned unchanged.
   */
  function GetCurrentOffset(cache: KafkaCache, topic: Option<string>, partition: Option<int>): (r: Response<Option<int>>)
    ensures topic.None? ==> r == Error(BadRequest(NullTopic))
    ensures topic == Some("") ==> r == Error(BadRequest(EmptyTopic))
    ensures topic.Some? && topic.value != "" && partition.None? ==> r == Error(BadRequest(NullPartition))
    ensures r.Ok? <==> topic.Some? && |topic.value| > 0 && partition.Some?
    ensures r.Ok? ==> r.body == cache.getCurrentOffset(topic.value, partition.value)
  {
    if topic.None? then Error(BadRequest(NullTopic))
    else if |topic.value| == 0 then Error(BadRequest(EmptyTopic))
    else if partition.None? then Error(BadRequest(NullPartition))
    else Ok(cache.getCurrentOffset(topic.value, partition.value))
  }

  // ---------------------------------------------------------------------------
  // Newline-separated listings

  const Newline: bv8 := 10

  /** Each item followed by one newline byte, in order. */
  function Lines(items: seq<Bytes>): Bytes
  {
    if items == [] then [] else items[0] + [Newline] + Lines(items[1..])
  }

  /** The total number of bytes in the items. */
  function TotalLength(items: seq<Bytes>): nat
  {
    if items == [] then 0 else |items[0]| + TotalLength(items[1..])
  }

  /** The listing is as long as all items together plus one newline per item. */
  lemma {:induction false} LinesLength(items: seq<Bytes>)
    ensures |Lines(items)| == TotalLength(items) + |items|
  {
    if items != [] {
      LinesLength(items[1..]);
    }
  }

  /** Writing one more item extends the listing by that item and a newline. */
  lemma {:induction false} LinesSnoc(items: seq<Bytes>, x: Bytes)
    ensures Lines(items + [x]) == Lines(items) + x + [Newline]
  {
    if items == [] {
      assert items + [x] == [x];
    } else {
      assert (items + [x])[1..] == items[1..] + [x];
      LinesSnoc(items[1..], x);
    }
  }

  /** The index of the first newline in `b`, or `|b|` when there is none. */
  function NewlineIndex(b: Bytes): (j: nat)
    ensures j <= |b|
    ensures forall i :: 0 <= i < j ==> b[i] != Newline
    ensures j < |b| ==> b[j] == Newline
  {
    if b == [] then 0
    else if b[0] == Newline then 0
    else 1 + NewlineIndex(b[1..])
  }

  /** Reads a listing back: the pieces between newlines; a last piece without a newline is kept. */
  function SplitLines(b: Bytes): seq<Bytes>
    decreases |b|
  {
    if b == [] then []
    else
      var j := NewlineIndex(b);
      if j == |b| then [b] else [b[..j]] + SplitLines(b[j + 1..])
  }

  /** A piece without a newline, followed by a newline, is read back as one line. */
  lemma SplitLinesCons(x: Bytes, rest: Bytes)
    requires forall k :: 0 <= k < |x| ==> x[k] != Newline
    ensures SplitLines(x + [Newline] + rest) == [x] + SplitLines(rest)
  {
    var b := x + [Newline] + rest;
    assert b[|x|] == Newline;
    assert forall k :: 0 <= k < |x| ==> b[k] == x[k];
    assert NewlineIndex(b) == |x|;
    assert b[..|x|] == x;
    assert b[|x| + 1..] == rest;
  }

  /** When no item contains a newline, splitting the listing gives the items back. */
  lemma {:induction false} LinesRoundTrip(items: seq<Bytes>)
    requires forall i, k :: 0 <= i < |items| && 0 <= k < |items[i]| ==> items[i][k] != Newline
    ensures SplitLines(Lines(items)) == items
  {
    if items != [] {
      SplitLinesCons(items[0], Lines(items[1..]));
      LinesRoundTrip(items[1..]);
    }
  }

  /**
   * The bytes of each key under the platform's default charset, in iterator
   * order. The ensures only spell out the element-wise view for the proofs below.
   */
  function KeyBytes(keys: seq<string>, encode: string -> Bytes): (r: seq<Bytes>)
    ensures |r| == |keys|
    ensures forall i :: 0 <= i < |keys| ==> r[i] == encode(keys[i])
  {
    seq(|keys|, i requires 0 <= i < |keys| => encode(keys[i]))
  }

  /** The plain `keys()` body. */
  function KeysListing(cache: KafkaCache, encode: string -> Bytes): Bytes
  {
    Lines(KeyBytes(cache.keys, encode))
  }

  /** The `values()` body. */
  function ValuesListing(cache: KafkaCache): Bytes
  {
    Lines(cache.values)
  }

  /** The key listing has one newline per key after the key's bytes, nothing else. */
  lemma KeysListingLength(cache: KafkaCache, encode: string -> Bytes)
    ensures |KeysListing(cache, encode)| == TotalLength(KeyBytes(cache.keys, encode)) + |cache.keys|
  {
    LinesLength(KeyBytes(cache.keys, encode));
  }

  /** Keys whose bytes contain no newline can be read back from the listing, in iterator order. */
  lemma KeysListingRoundTrip(cache: KafkaCache, encode: string -> Bytes)
    requires forall i, k :: 0 <= i < |cache.keys| && 0 <= k < |encode(cache.keys[i])| ==> encode(cache.keys[i])[k] != Newline
    ensures SplitLines(KeysListing(cache, encode)) == KeyBytes(cache.keys, encode)
  {
    LinesRoundTrip(KeyBytes(cache.keys, encode));
  }

  /** The response stream: everything written to it so far. */
  class OutputStream {
    var written: Bytes

    constructor ()
      ensures written == []
    {
      written := [];
    }

    method Write(b: Bytes)
      modifies this
      ensures written == old(written) + b
    {
      written := written + b;
    }

    method WriteByte(b: bv8)
      modifies this
      ensures written == old(written) + [b]
    {
      written := written + [b];
    }
  }

  /** Streams the plain key listing: each key's bytes, then a newline. */
  method WriteKeys(cache: KafkaCache, encode: string -> Bytes, out: OutputStream)
    modifies out
    ensures out.written == old(out.written) + KeysListing(cache, encode)
  {
    var all := cache.keys;
    var i := 0;
    while i < |all|
      invariant 0 <= i <= |all|
      invariant out.written == old(out.written) + Lines(KeyBytes(all[..i], encode))
    {
      var key := all[i];
      LinesSnoc(KeyBytes(all[..i], encode), encode(key));
      assert KeyBytes(all[..i + 1], encode) == KeyBytes(all[..i], encode) + [encode(key)];
      out.Write(encode(key));
      out.WriteByte(Newline);
      i := i + 1;
    }
    assert all[..i] == all;
  }

  /** Streams the value listing: each value, then a newline. */
  method WriteValues(cache: KafkaCache, out: OutputStream)
    modifies out
    ensures out.written == old(out.written) + ValuesListing(cache)
  {
    var values := cache.values;
    var i := 0;
    while i < |values|
      invariant 0 <= i <= |values|
      invariant out.written == old(out.written) + Lines(values[..i])
    {
      LinesSnoc(values[..i], values[i]);
      assert values[..i + 1] == values[..i] + [values[i]];
      out.Write(values[i]);
      out.WriteByte(Newline);
      i := i + 1;
    }
    assert values[..i] == values;
  }
}
