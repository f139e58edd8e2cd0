/**
 * Batched embedding of a list of texts: the list is cut into consecutive
 * batches, each batch is sent to the remote embedding service, each
 * response is sorted by its `index` field and the vectors are appended in
 * batch order. The remote service is a parameter: a function from one batch
 * of input texts to the response it returns.
 */
module Embedding {
  import opened Wrappers
  import opened Seqs
  import opened Arith

  type Vector = seq<real>

  /** One element of a response's `data` array. */
  datatype Item = Item(embedding: Vector, index: int)

  /** What the service answers: an ok response with its items, or a status and body text. */
  datatype Response = Ok(data: seq<Item>) | NotOk(status: int, body: string)

  /** The error `createEmbedding` throws on a response that is not ok. */
  datatype EmbedError = ApiError(status: int, body: string)

  type Remote = seq<string> -> Response

  function Min(a: int, b: int): int {
    if a <= b then a else b
  }

  /** `createEmbedding({input})`: the items of an ok response, or the error thrown otherwise. */
  function CreateEmbedding(input: seq<string>, remote: Remote): (r: Result<seq<Item>, EmbedError>)
    ensures r.Success? <==> remote(input).Ok?
    ensures r.Success? ==> r.value == remote(input).data
    ensures r.Failure? ==> r.error == ApiError(remote(input).status, remote(input).body)
  {
    match remote(input)
    case Ok(data) => Success(data)
    case NotOk(status, body) => Failure(ApiError(status, body))
  }

  // ---- Batches ---------------------------------------------------------------

  /** `texts.slice(i, i + b)` for `i = 0, b, 2b, ...` while `i < |texts|`. */
  function Batches(texts: seq<string>, b: int): seq<seq<string>>
    requires b > 0
    decreases |texts|
  {
    if texts == [] then []
    else
      var m := Min(b, |texts|);
      [texts[..m]] + Batches(texts[m..], b)
  }

  /** The texts from position `i` on; nothing once `i` has passed the end. */
  function Suffix(texts: seq<string>, i: int): seq<string>
    requires 0 <= i
  {
    if i < |texts| then texts[i..] else []
  }

  function Flatten(parts: seq<seq<string>>): seq<string> {
    if parts == [] then [] else parts[0] + Flatten(parts[1..])
  }

  /** Every batch is non-empty and holds at most `b` texts. */
  lemma {:induction false} BatchSizes(texts: seq<string>, b: int)
    requires b > 0
    ensures forall k :: 0 <= k < |Batches(texts, b)| ==> 0 < |Batches(texts, b)[k]| <= b
    decreases |texts|
  {
    if texts != [] {
      BatchSizes(texts[Min(b, |texts|)..], b);
    }
  }

  /** The batches, put back together, are the texts. */
  lemma {:induction false} BatchesCover(texts: seq<string>, b: int)
    requires b > 0
    ensures Flatten(Batches(texts, b)) == texts
    decreases |texts|
  {
    if texts != [] {
      var m := Min(b, |texts|);
      BatchesCover(texts[m..], b);
      var bs := Batches(texts, b);
      AppendTail([texts[..m]], Batches(texts[m..], b));
      assert bs[1..] == Batches(texts[m..], b);
      assert texts == texts[..m] + texts[m..];
    }
  }

  /** Batch `k` is the slice of the texts from `k * b` to `(k + 1) * b`, cut at the end. */
  lemma {:induction false} BatchAt(texts: seq<string>, b: int, k: nat)
    requires b > 0 && k < |Batches(texts, b)|
    ensures k * b < |texts|
    ensures Batches(texts, b)[k] == texts[k * b..Min((k + 1) * b, |texts|)]
    decreases k
  {
    var m := Min(b, |texts|);
    if k > 0 {
      var rest := texts[m..];
      assert Batches(texts, b)[k] == Batches(rest, b)[k - 1];
      BatchAt(rest, b, k - 1);
      assert m == b;
      ShiftBy(k, b, |texts|);
      SliceShift(texts, b, (k - 1) * b, Min(k * b, |rest|));
    }
  }

  lemma ShiftBy(k: int, b: int, n: int)
    requires k > 0 && b > 0
    ensures b + (k - 1) * b == k * b
    ensures b + Min(k * b, n - b) == Min((k + 1) * b, n)
  {
    assert k * b + b == (k + 1) * b;
  }

  /** There are exactly `ceil(|texts| / b)` batches: one remote call each. */
  lemma {:induction false} BatchCount(texts: seq<string>, b: int)
    requires b > 0
    ensures |Batches(texts, b)| == (|texts| + b - 1) / b
    decreases |texts|
  {
    if texts != [] {
      var m := Min(b, |texts|);
      BatchCount(texts[m..], b);
      if |texts| > b {
        DivAddDivisor(|texts| - b + b - 1, b);
      } else {
        DivBetween(|texts| + b - 1, b);
      }
    }
  }

  /** The batches after the one starting at `i` are the batches of the texts from `i + b` on. */
  lemma BatchesStep(texts: seq<string>, b: int, i: int)
    requires b > 0 && 0 <= i < |texts|
    ensures Batches(Suffix(texts, i), b) == [texts[i..Min(i + b, |texts|)]] + Batches(Suffix(texts, i + b), b)
  {
    var s := texts[i..];
    var m := Min(b, |s|);
    SuffixSlices(texts, i, m);
    if i + b >= |texts| {
      assert s[m..] == [];
    }
  }

  /** The batches as the loop cuts them: `texts.slice(i, i + b)` for `i`, `i + b`, ... while `i < |texts|`. */
  function BatchesFrom(texts: seq<string>, b: int, i: int): seq<seq<string>>
    requires b > 0 && 0 <= i
    decreases |texts| - i
  {
    if i >= |texts| then []
    else [texts[i..Min(i + b, |texts|)]] + BatchesFrom(texts, b, i + b)
  }

  /** The loop's batches from `i` are the batches of the texts from `i` on. */
  lemma {:induction false} BatchesFromSuffix(texts: seq<string>, b: int, i: int)
    requires b > 0 && 0 <= i
    ensures BatchesFrom(texts, b, i) == Batches(Suffix(texts, i), b)
    decreases |texts| - i
  {
    if i < |texts| {
      BatchesFromSuffix(texts, b, i + b);
      BatchesStep(texts, b, i);
    }
  }

  /** From the start, the loop's batches are `Batches`. */
  lemma BatchesFromStart(texts: seq<string>, b: int)
    requires b > 0
    ensures BatchesFrom(texts, b, 0) == Batches(texts, b)
  {
    BatchesFromSuffix(texts, b, 0);
    assert Suffix(texts, 0) == texts;
  }

  // ---- Sorting a response by index ------------------------------------------

  predicate SortedByIndex(items: seq<Item>) {
    forall i, j :: 0 <= i < j < |items| ==> items[i].index <= items[j].index
  }

  lemma SortedCons(y: Item, t: seq<Item>)
    requires SortedByIndex(t)
    requires t == [] || y.index <= t[0].index
    ensures SortedByIndex([y] + t)
  {
    var r := [y] + t;
    forall i, j | 0 <= i < j < |r|
      ensures r[i].index <= r[j].index
    {
      if i == 0 && j > 1 {
        assert r[j] == t[j - 1];
      }
    }
  }

  /** `x` placed after every item whose index is not greater: the stable insertion step. */
  function Insert(x: Item, s: seq<Item>): seq<Item>
    decreases |s|
  {
    if s == [] then [x]
    else if x.index < s[0].index then [x] + s
    else [s[0]] + Insert(x, s[1..])
  }

  /** Inserting into a sorted sequence keeps it sorted and adds exactly `x`. */
  lemma {:induction false} InsertSorts(x: Item, s: seq<Item>)
    requires SortedByIndex(s)
    ensures SortedByIndex(Insert(x, s))
    ensures multiset(Insert(x, s)) == multiset(s) + multiset{x}
    decreases |s|
  {
    if s == [] {
    } else if x.index < s[0].index {
      SortedCons(x, s);
    } else {
      var t := Insert(x, s[1..]);
      InsertSorts(x, s[1..]);
      SplitFirst(s);
      assert s[0].index <= t[0].index by {
        assert t[0] in multiset(s[1..]) + multiset{x};
        if t[0] != x {
          assert t[0] in s[1..];
        }
      }
      SortedCons(s[0], t);
    }
  }

  /** `data.sort((a, b) => a.index - b.index)`: a stable sort by index, inserting from the back. */
  function SortByIndex(s: seq<Item>): seq<Item>
    decreases |s|
  {
    if s == [] then []
    else Insert(s[|s| - 1], SortByIndex(s[..|s| - 1]))
  }

  /** The sort orders the items by index and keeps exactly the same items. */
  lemma {:induction false} SortSorts(s: seq<Item>)
    ensures SortedByIndex(SortByIndex(s))
    ensures multiset(SortByIndex(s)) == multiset(s)
    decreases |s|
  {
    if s != [] {
      var init := s[..|s| - 1];
      SortSorts(init);
      InsertSorts(s[|s| - 1], SortByIndex(init));
      SplitLast(s);
    }
  }

  function Vectors(items: seq<Item>): (vs: seq<Vector>)
    ensures |vs| == |items|
  {
    seq(|items|, i requires 0 <= i < |items| => items[i].embedding)
  }

  function Indices(items: seq<Item>): (ks: seq<int>)
    ensures |ks| == |items|
  {
    seq(|items|, i requires 0 <= i < |items| => items[i].index)
  }

  // ---- The whole batch loop ---------------------------------------------------

  /** A result with `e` in front of its vectors; a failure stays that failure. */
  function Prepend(e: seq<Vector>, r: Result<seq<Vector>, EmbedError>): Result<seq<Vector>, EmbedError> {
    match r
    case Success(v) => Success(e + v)
    case Failure(err) => Failure(err)
  }

  /** The result of processing `batches` in order, stopping at the first error. */
  function EmbedAll(batches: seq<seq<string>>, remote: Remote): Result<seq<Vector>, EmbedError> {
    if batches == [] then Success([])
    else
      match CreateEmbedding(batches[0], remote)
      case Failure(e) => Failure(e)
      case Success(data) => Prepend(Vectors(SortByIndex(data)), EmbedAll(batches[1..], remote))
  }

  /** The inputs of the remote calls made: every batch up to and including the first that fails. */
  function CallsMade(batches: seq<seq<string>>, remote: Remote): seq<seq<string>> {
    if batches == [] then []
    else if remote(batches[0]).Ok? then [batches[0]] + CallsMade(batches[1..], remote)
    else [batches[0]]
  }

  /**
   * `createEmbeddingBatch(texts, batchSize)`. The result is what `EmbedAll`
   * says: all vectors or, when a call fails, that call's error and no
   * vectors at all. `calls` records the input of each remote call in order.
   */
  method CreateEmbeddingBatch(texts: seq<string>, batchSize: int, remote: Remote)
    returns (result: Result<seq<Vector>, EmbedError>, calls: seq<seq<string>>)
    requires batchSize > 0 || texts == []
    ensures texts == [] ==> result == Success([]) && calls == []
    ensures batchSize > 0 ==> result == EmbedAll(Batches(texts, batchSize), remote)
    ensures batchSize > 0 ==> calls == CallsMade(Batches(texts, batchSize), remote)
  {
    calls := [];
    if texts == [] {
      return Success([]), calls;
    }
    var embeddings: seq<Vector> := [];
    var i := 0;
    ghost var goal := EmbedAll(Batches(texts, batchSize), remote);
    ghost var goalCalls := CallsMade(Batches(texts, batchSize), remote);
    Start(texts, batchSize, remote);
    while i < |texts|
      invariant Progress(texts, batchSize, i, embeddings, calls, goal, goalCalls, remote)
      decreases |texts| - i
    {
      var batch := texts[i..Min(i + batchSize, |texts|)];
      var response := CreateEmbedding(batch, remote);
      if response.Failure? {
        FailStep(texts, batchSize, i, embeddings, calls, goal, goalCalls, remote);
        return Failure(response.error), calls + [batch];
      }
      var sorted := SortByIndex(response.value);
      ghost var i0, e0, c0 := i, embeddings, calls;
      calls := calls + [batch];
      embeddings := embeddings + Vectors(sorted);
      i := i + batchSize;
      OkStep(texts, batchSize, i0, e0, c0, i, embeddings, calls, goal, goalCalls, remote);
    }
    Done(texts, batchSize, i, embeddings, calls, goal, goalCalls, remote);
    result := Success(embeddings);
  }

  /**
   * The loop invariant: after the vectors `e` and the calls `calls`, what is
   * left to do from position `i` completes the whole result `goal` and the
   * whole call list `goalCalls`.
   */
  ghost predicate Progress(texts: seq<string>, b: int, i: int, e: seq<Vector>, calls: seq<seq<string>>,
                           goal: Result<seq<Vector>, EmbedError>, goalCalls: seq<seq<string>>, remote: Remote)
  {
    && b > 0 && 0 <= i
    && goal == Prepend(e, EmbedAll(BatchesFrom(texts, b, i), remote))
    && goalCalls == calls + CallsMade(BatchesFrom(texts, b, i), remote)
  }

  /** Before the first turn nothing is done and everything is left. */
  lemma Start(texts: seq<string>, b: int, remote: Remote)
    requires b > 0
    ensures Progress(texts, b, 0, [], [], EmbedAll(Batches(texts, b), remote), CallsMade(Batches(texts, b), remote), remote)
  {
    BatchesFromStart(texts, b);
    PrependNil(EmbedAll(Batches(texts, b), remote));
  }

  /** A turn of the loop whose call fails: its error is the result and it is the last call. */
  lemma FailStep(texts: seq<string>, b: int, i: int, e: seq<Vector>, calls: seq<seq<string>>,
                 goal: Result<seq<Vector>, EmbedError>, goalCalls: seq<seq<string>>, remote: Remote)
    requires Progress(texts, b, i, e, calls, goal, goalCalls, remote) && i < |texts|
    requires !remote(texts[i..Min(i + b, |texts|)]).Ok?
    ensures goal == Failure(ApiError(remote(texts[i..Min(i + b, |texts|)]).status, remote(texts[i..Min(i + b, |texts|)]).body))
    ensures goalCalls == calls + [texts[i..Min(i + b, |texts|)]]
  {
    StepFacts(texts[i..Min(i + b, |texts|)], BatchesFrom(texts, b, i + b), remote);
  }

  /**
   * A turn of the loop whose call succeeds: with its sorted vectors and its
   * call done, the batches from `i + b` are left.
   */
  lemma OkStep(texts: seq<string>, b: int, i: int, e: seq<Vector>, calls: seq<seq<string>>,
               i': int, e': seq<Vector>, calls': seq<seq<string>>,
               goal: Result<seq<Vector>, EmbedError>, goalCalls: seq<seq<string>>, remote: Remote)
    requires Progress(texts, b, i, e, calls, goal, goalCalls, remote) && i < |texts|
    requires remote(texts[i..Min(i + b, |texts|)]).Ok?
    requires i' == i + b
    requires e' == e + Vectors(SortByIndex(remote(texts[i..Min(i + b, |texts|)]).data))
    requires calls' == calls + [texts[i..Min(i + b, |texts|)]]
    ensures Progress(texts, b, i', e', calls', goal, goalCalls, remote)
  {
    var batch := texts[i..Min(i + b, |texts|)];
    var rest := BatchesFrom(texts, b, i + b);
    StepFacts(batch, rest, remote);
    AppendAssoc(calls, [batch], CallsMade(rest, remote));
    PrependTwice(e, Vectors(SortByIndex(remote(batch).data)), EmbedAll(rest, remote));
  }

  /** Once `i` has passed the end, the vectors and the calls are the whole result. */
  lemma Done(texts: seq<string>, b: int, i: int, e: seq<Vector>, calls: seq<seq<string>>,
             goal: Result<seq<Vector>, EmbedError>, goalCalls: seq<seq<string>>, remote: Remote)
    requires Progress(texts, b, i, e, calls, goal, goalCalls, remote) && i >= |texts|
    ensures goal == Success(e) && goalCalls == calls
  {
    AppendNil(calls);
    AppendNil(e);
  }

  /** One turn of the loop, stated on the specification functions. */
  lemma StepFacts(batch: seq<string>, rest: seq<seq<string>>, remote: Remote)
    ensures !remote(batch).Ok? ==>
      && EmbedAll([batch] + rest, remote) == Failure(ApiError(remote(batch).status, remote(batch).body))
      && CallsMade([batch] + rest, remote) == [batch]
    ensures remote(batch).Ok? ==>
      && EmbedAll([batch] + rest, remote) == Prepend(Vectors(SortByIndex(remote(batch).data)), EmbedAll(rest, remote))
      && CallsMade([batch] + rest, remote) == [batch] + CallsMade(rest, remote)
  {
    ConsParts(batch, rest);
  }

  lemma PrependNil(r: Result<seq<Vector>, EmbedError>)
    ensures Prepend([], r) == r
  {
    if r.Success? {
      assert [] + r.value == r.value;
    }
  }

  lemma PrependTwice(a: seq<Vector>, b: seq<Vector>, r: Result<seq<Vector>, EmbedError>)
    ensures Prepend(a, Prepend(b, r)) == Prepend(a + b, r)
  {
    if r.Success? {
      AppendAssoc(a, b, r.value);
    }
  }

  // ---- Reassembly: output position `j` is the embedding of `texts[j]` --------

  /** `texts.map(f)` for an embedding function `f`. */
  function MapEmbed(texts: seq<string>, f: string -> Vector): (vs: seq<Vector>)
    ensures |vs| == |texts|
  {
    seq(|texts|, j requires 0 <= j < |texts| => f(texts[j]))
  }

  /** The items a service faithful to `f` returns for `batch`, in index order. */
  function Expected(batch: seq<string>, f: string -> Vector): seq<Item> {
    seq(|batch|, j requires 0 <= j < |batch| => Item(f(batch[j]), j))
  }

  /**
   * A response faithful to `f`: its items are, in some order, one item per
   * input position `j`, with index `j` and the embedding `f(batch[j])`.
   */
  predicate Faithful(batch: seq<string>, data: seq<Item>, f: string -> Vector) {
    multiset(data) == multiset(Expected(batch, f))
  }

  predicate StrictlySortedByIndex(items: seq<Item>) {
    forall i, j :: 0 <= i < j < |items| ==> items[i].index < items[j].index
  }

  /** A sorted arrangement of the items of a strictly sorted sequence is that sequence. */
  lemma {:induction false} SortedUnique(a: seq<Item>, b: seq<Item>)
    requires SortedByIndex(a) && StrictlySortedByIndex(b)
    requires multiset(a) == multiset(b)
    ensures a == b
    decreases |a|
  {
    if a == [] {
      assert |multiset(b)| == 0;
    } else {
      assert a[0] in multiset(b);
      assert b != [];
      assert b[0] in multiset(a);
      assert a[0] == b[0] by {
        var k :| 0 <= k < |b| && b[k] == a[0];
        var m :| 0 <= m < |a| && a[m] == b[0];
        assert a[0].index <= a[m].index;
        assert b[0].index <= b[k].index;
      }
      MultisetTail(a, b);
      SortedTails(a, b);
      SortedUnique(a[1..], b[1..]);
      SplitFirst(a);
      SplitFirst(b);
    }
  }

  lemma SortedTails(a: seq<Item>, b: seq<Item>)
    requires a != [] && b != []
    requires SortedByIndex(a) && StrictlySortedByIndex(b)
    ensures SortedByIndex(a[1..]) && StrictlySortedByIndex(b[1..])
  {
  }

  /** Sorting a faithful response puts the embedding of `batch[j]` at position `j`. */
  lemma SortFaithful(batch: seq<string>, data: seq<Item>, f: string -> Vector)
    requires Faithful(batch, data, f)
    ensures Vectors(SortByIndex(data)) == MapEmbed(batch, f)
  {
    var e := Expected(batch, f);
    SortSorts(data);
    SortedUnique(SortByIndex(data), e);
  }

  lemma MapEmbedAppend(a: seq<string>, b: seq<string>, f: string -> Vector)
    ensures MapEmbed(a + b, f) == MapEmbed(a, f) + MapEmbed(b, f)
  {
  }

  /** Every remote call answered faithfully: the vectors of all batches, in order. */
  lemma {:induction false} EmbedAllFaithful(bs: seq<seq<string>>, remote: Remote, f: string -> Vector)
    requires forall k :: 0 <= k < |bs| ==> remote(bs[k]).Ok? && Faithful(bs[k], remote(bs[k]).data, f)
    ensures EmbedAll(bs, remote) == Success(MapEmbed(Flatten(bs), f))
    decreases |bs|
  {
    if bs != [] {
      EmbedAllFaithful(bs[1..], remote, f);
      SortFaithful(bs[0], remote(bs[0]).data, f);
      MapEmbedAppend(bs[0], Flatten(bs[1..]), f);
    }
  }

  /**
   * The reassembly property: with every response faithful to `f`, the
   * result has one vector per text and position `j` holds `f(texts[j])`.
   */
  lemma Reassembly(texts: seq<string>, b: int, remote: Remote, f: string -> Vector)
    requires b > 0
    requires forall k :: 0 <= k < |Batches(texts, b)| ==>
      remote(Batches(texts, b)[k]).Ok? && Faithful(Batches(texts, b)[k], remote(Batches(texts, b)[k]).data, f)
    ensures EmbedAll(Batches(texts, b), remote) == Success(MapEmbed(texts, f))
  {
    EmbedAllFaithful(Batches(texts, b), remote, f);
    BatchesCover(texts, b);
  }

  /** The loop fails exactly when some batch's response is not ok. */
  lemma {:induction false} EmbedAllFails(bs: seq<seq<string>>, remote: Remote)
    ensures EmbedAll(bs, remote).Failure? <==> exists k :: 0 <= k < |bs| && !remote(bs[k]).Ok?
    decreases |bs|
  {
    if bs != [] {
      EmbedAllFails(bs[1..], remote);
      if !remote(bs[0]).Ok? {
        assert !remote(bs[0]).Ok?;
      } else if exists k :: 0 <= k < |bs[1..]| && !remote(bs[1..][k]).Ok? {
        var k :| 0 <= k < |bs[1..]| && !remote(bs[1..][k]).Ok?;
        assert !remote(bs[k + 1]).Ok?;
      } else {
        forall k | 0 <= k < |bs|
          ensures remote(bs[k]).Ok?
        {
          if k > 0 {
            assert bs[k] == bs[1..][k - 1];
          }
        }
      }
    }
  }

  /**
   * When batch `k` is the first whose response is not ok, the loop ends with
   * that response's error, and the calls made are the batches up to `k`.
   */
  lemma {:induction false} FirstFailure(bs: seq<seq<string>>, remote: Remote, k: nat)
    requires k < |bs| && !remote(bs[k]).Ok?
    requires forall j :: 0 <= j < k ==> remote(bs[j]).Ok?
    ensures EmbedAll(bs, remote) == Failure(ApiError(remote(bs[k]).status, remote(bs[k]).body))
    ensures CallsMade(bs, remote) == bs[..k + 1]
    decreases k
  {
    if k > 0 {
      forall j | 0 <= j < k - 1
        ensures remote(bs[1..][j]).Ok?
      {
        assert bs[1..][j] == bs[j + 1];
      }
      FirstFailure(bs[1..], remote, k - 1);
      var e := EmbedAll(bs[1..], remote);
      ConsParts(bs[0], bs[1..][..k]);
      assert bs[..k + 1] == [bs[0]] + bs[1..][..k];
    } else {
      assert bs[..1] == [bs[0]];
    }
  }

  /** With every response ok, one call is made per batch, in batch order. */
  lemma {:induction false} AllCallsMade(bs: seq<seq<string>>, remote: Remote)
    requires forall j :: 0 <= j < |bs| ==> remote(bs[j]).Ok?
    ensures CallsMade(bs, remote) == bs
    decreases |bs|
  {
    if bs != [] {
      AllCallsMade(bs[1..], remote);
      SplitFirst(bs);
    }
  }

  /** Embedding zero texts makes no call and gives no vectors. */
  lemma NoTexts(b: int, remote: Remote)
    requires b > 0
    ensures Batches([], b) == [] && EmbedAll(Batches([], b), remote) == Success([])
  {
  }

  /**
   * At most `b` texts go out in one `createEmbedding` call: its error is the
   * batch run's error, and its items, sorted by `index`, give the vectors.
   */
  lemma OneBatch(texts: seq<string>, b: int, remote: Remote)
    requires 0 < |texts| <= b
    ensures Batches(texts, b) == [texts] && CallsMade(Batches(texts, b), remote) == [texts]
    ensures CreateEmbedding(texts, remote).Failure? ==>
      EmbedAll(Batches(texts, b), remote) == Failure(CreateEmbedding(texts, remote).error)
    ensures CreateEmbedding(texts, remote).Success? ==>
      EmbedAll(Batches(texts, b), remote) == Success(Vectors(SortByIndex(CreateEmbedding(texts, remote).value)))
  {
    assert texts[..|texts|] == texts && texts[|texts|..] == [];
    assert Batches(texts, b) == [texts];
    assert [texts][1..] == [];
    var r := CreateEmbedding(texts, remote);
    if r.Success? {
      assert Vectors(SortByIndex(r.value)) + [] == Vectors(SortByIndex(r.value));
    }
  }
}
