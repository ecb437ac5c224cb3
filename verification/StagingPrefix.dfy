/** Listing and emptying one S3 staging prefix, and the qualification cleanup built on it. */
module StagingPrefix {
  import opened Text
  import opened Wrappers
  import opened Bags

  /** The key lies under the prefix, followed by a slash. */
  predicate Under(prefix: string, key: string) {
    prefix + "/" <= key
  }

  function Owned(keys: set<string>, prefix: string): set<string> {
    set k | k in keys && Under(prefix, k)
  }

  /** The owned keys a listing that stopped at the token has still to return. */
  function Remaining(keys: set<string>, prefix: string, token: Option<string>): set<string> {
    set k | k in Owned(keys, prefix) && (token.Some? ==> Less(token.value, k))
  }

  /** The owned keys a listing that stopped at the token has returned. */
  function Returned(keys: set<string>, prefix: string, token: Option<string>): set<string> {
    set k | k in Owned(keys, prefix) && token.Some? && Leq(k, token.value)
  }

  /** One listing response as the caller inspects it; None marks a value of the wrong type. */
  datatype Response =
    | ListRaised
    | Page(contents: Option<seq<Option<string>>>, truncated: bool, next: Option<string>)

  datatype DeleteResponse = DeleteRaised | NotMapping | Errors(errors: Option<seq<string>>)

  /** A response the caller must refuse: wrong types, a key outside the prefix, or truncation without a token. */
  predicate Malformed(r: Response, prefix: string) {
    match r
    case ListRaised => true
    case Page(contents, truncated, next) =>
      contents.None? ||
      (exists c :: c in contents.value && (c.None? || !Under(prefix, c.value))) ||
      (truncated && (next.None? || next.value == []))
  }

  /** The next keys in order, with a token exactly when more remain. */
  ghost predicate FaithfulPage(r: Response, keys: set<string>, prefix: string, token: Option<string>) {
    var remaining := Sorted(Remaining(keys, prefix, token));
    r.Page? && r.contents.Some? &&
    |r.contents.value| <= |remaining| &&
    (forall i :: 0 <= i < |r.contents.value| ==> r.contents.value[i] == Some(remaining[i])) &&
    (r.truncated <==> |r.contents.value| < |remaining|) &&
    (r.truncated ==> r.contents.value != [] && r.next == r.contents.value[|r.contents.value| - 1])
  }

  class Bucket {
    var keys: set<string>
    var batches: seq<seq<string>>
    var faults: nat

    constructor (keys: set<string>)
      ensures this.keys == keys && batches == [] && faults == 0
    {
      this.keys, batches, faults := keys, [], 0;
    }

    /** Pages of any size; a fault is a response the caller can tell is wrong. */
    method List(prefix: string, token: Option<string>) returns (r: Response)
      modifies `faults
      ensures faults == old(faults) ==> FaithfulPage(r, keys, prefix, token)
      ensures faults != old(faults) ==> faults == old(faults) + 1 && Malformed(r, prefix)
    {
      var fail: bool := *;
      if fail {
        faults := faults + 1;
        return ListRaised;
      }
      var remaining := Sorted(Remaining(keys, prefix, token));
      if remaining == [] {
        return Page(Some([]), false, None);
      }
      var size: nat := *;
      var n := if 1 <= size <= |remaining| then size else |remaining|;
      var contents := seq(n, i requires 0 <= i < n => Some(remaining[i]));
      return Page(Some(contents), n < |remaining|, if n < |remaining| then contents[n - 1] else None);
    }

    /** delete_objects: a fault may have deleted any part of the batch. */
    method DeleteObjects(batch: seq<string>) returns (r: DeleteResponse)
      modifies this
      ensures batches == old(batches) + [batch]
      ensures faults == old(faults) ==> r == Errors(Some([])) && keys == old(keys) - KeySet(batch)
      ensures faults != old(faults) ==> faults == old(faults) + 1 && r != Errors(Some([]))
      ensures keys <= old(keys) && old(keys) - KeySet(batch) <= keys
    {
      batches := batches + [batch];
      var fail: bool := *;
      if fail {
        faults := faults + 1;
        var undeleted: set<string> := *;
        keys := keys - (KeySet(batch) - undeleted);
        return DeleteRaised;
      }
      keys := keys - KeySet(batch);
      return Errors(Some([]));
    }
  }

  // ---------------------------------------------------------------- listing

  lemma SortedStep(remaining: seq<string>, s: set<string>, n: nat)
    requires remaining == Sorted(s) && 0 < n <= |remaining|
    ensures forall k :: k in s ==> (k in remaining[..n] <==> Leq(k, remaining[n - 1]))
  {
    forall k | k in s
      ensures k in remaining[..n] <==> Leq(k, remaining[n - 1])
    {
      var i :| 0 <= i < |remaining| && remaining[i] == k;
      LeqTotal(k, k);
      if i >= n {
        assert Less(remaining[n - 1], remaining[i]);
        if Leq(k, remaining[n - 1]) {
          LeqAntisymmetric(k, remaining[n - 1]);
        }
      } else if i < n - 1 {
        assert Less(remaining[i], remaining[n - 1]);
      }
    }
  }

  /** Taking one faithful, non-empty page moves its keys from what remains to what was returned. */
  lemma PageProgress(keys: set<string>, prefix: string, token: Option<string>, page: seq<string>, n: nat)
    requires var remaining := Sorted(Remaining(keys, prefix, token)); 0 < n <= |remaining| && page == remaining[..n]
    ensures var next := Some(page[n - 1]);
      Returned(keys, prefix, next) == Returned(keys, prefix, token) + (set k | k in page) &&
      Remaining(keys, prefix, next) == Remaining(keys, prefix, token) - (set k | k in page)
  {
    var s := Remaining(keys, prefix, token);
    var last := page[n - 1];
    assert last in Sorted(s);
    SortedStep(Sorted(s), s, n);
    forall k | k in Owned(keys, prefix)
      ensures Leq(k, last) <==> k in Returned(keys, prefix, token) || k in page
      ensures Less(last, k) <==> k in s && k !in page
    {
      OrderAround(keys, prefix, token, k, last);
      assert k in page ==> k in Sorted(s);
    }
    assert forall k :: k in page ==> k in Sorted(s);
  }

  /** Where an owned key stands relative to the token and to a later key. */
  lemma OrderAround(keys: set<string>, prefix: string, token: Option<string>, k: string, last: string)
    requires last in Remaining(keys, prefix, token) && k in Owned(keys, prefix)
    ensures Leq(k, last) <==> !Less(last, k)
    ensures k in Returned(keys, prefix, token) <==> k !in Remaining(keys, prefix, token)
    ensures k in Returned(keys, prefix, token) ==> Leq(k, last)
  {
    LeqTotal(k, last);
    if Leq(k, last) && Leq(last, k) {
      LeqAntisymmetric(k, last);
    }
    if token.Some? {
      LeqTotal(k, token.value);
      if Leq(k, token.value) && Leq(token.value, k) {
        LeqAntisymmetric(k, token.value);
      }
      if Leq(k, token.value) {
        LeqTransitive(k, token.value, last);
      }
    }
  }

  lemma AppendSorted(a: seq<string>, b: seq<string>)
    requires StrictlySorted(a) && StrictlySorted(b)
    requires forall x, y :: x in a && y in b ==> Less(x, y)
    ensures StrictlySorted(a + b)
  {
  }

  /** The keys seen so far precede the keys still to come. */
  lemma ReturnedBeforeRemaining(keys: set<string>, prefix: string, token: Option<string>)
    ensures forall x, y :: x in Returned(keys, prefix, token) && y in Remaining(keys, prefix, token) ==> Less(x, y)
  {
    forall x, y | x in Returned(keys, prefix, token) && y in Remaining(keys, prefix, token)
      ensures Less(x, y)
    {
      LeqTransitive(x, token.value, y);
      if x == y {
        LeqAntisymmetric(x, token.value);
      }
    }
  }

  function Values(contents: seq<Option<string>>): seq<string>
    requires forall c :: c in contents ==> c.Some?
  {
    seq(|contents|, i requires 0 <= i < |contents| => assert contents[i] in contents; contents[i].value)
  }

  /** The listing loop's checks on one response. */
  method CheckPage(response: Response, prefix: string) returns (page: Option<seq<string>>)
    ensures page.None? <==> Malformed(response, prefix)
    ensures page.Some? ==> |page.value| == |response.contents.value|
    ensures page.Some? ==> forall i :: 0 <= i < |page.value| ==> response.contents.value[i] == Some(page.value[i])
  {
    if response.ListRaised? || response.contents.None? {
      return None;
    }
    if exists c :: c in response.contents.value && (c.None? || !Under(prefix, c.value)) {
      return None;
    }
    if response.truncated && (response.next.None? || response.next.value == []) {
      return None;
    }
    return Some(Values(response.contents.value));
  }

  /** One accepted faithful page extends the listing, and completes it when nothing more remains. */
  lemma PageTaken(
    keys: set<string>, prefix: string, token: Option<string>, response: Response, before: seq<string>,
    page: seq<string>)
    requires FaithfulPage(response, keys, prefix, token) && |page| == |response.contents.value|
    requires forall i :: 0 <= i < |page| ==> response.contents.value[i] == Some(page[i])
    requires StrictlySorted(before) && forall k :: k in before <==> k in Returned(keys, prefix, token)
    ensures StrictlySorted(before + page)
    ensures !response.truncated ==> before + page == Sorted(Owned(keys, prefix))
    ensures response.truncated ==>
      (forall k :: k in before + page <==> k in Returned(keys, prefix, response.next)) &&
      Remaining(keys, prefix, response.next) < Remaining(keys, prefix, token)
  {
    var remaining := Sorted(Remaining(keys, prefix, token));
    assert page == remaining[..|page|];
    ReturnedBeforeRemaining(keys, prefix, token);
    assert forall k :: k in page ==> k in remaining;
    AppendSorted(before, page);
    if response.truncated {
      PageProgress(keys, prefix, token, page, |page|);
      assert page[0] in Remaining(keys, prefix, token);
    } else {
      assert page == remaining;
      AllReturned(keys, prefix, token, before, page);
      SortedUnique(before + page, Sorted(Owned(keys, prefix)));
    }
  }

  lemma SmallerSet(a: set<string>, b: set<string>)
    requires a < b
    ensures |a| < |b|
  {
    assert b == a + (b - a);
    assert b - a != {};
  }

  /** All keys under the prefix, each once, in order; a malformed response is an error, never a partial listing. */
  method PrefixKeys(bucket: Bucket, prefix: string) returns (r: Option<seq<string>>)
    modifies bucket`faults
    ensures bucket.faults >= old(bucket.faults)
    ensures r.None? <==> bucket.faults > old(bucket.faults)
    ensures r.Some? ==> r.value == Sorted(Owned(bucket.keys, prefix))
  {
    var keys: seq<string> := [];
    var token: Option<string> := None;
    while true
      invariant bucket.faults == old(bucket.faults)
      invariant StrictlySorted(keys)
      invariant forall k :: k in keys <==> k in Returned(bucket.keys, prefix, token)
      decreases |Remaining(bucket.keys, prefix, token)|
    {
      var response := bucket.List(prefix, token);
      var page := CheckPage(response, prefix);
      FaithfulIsWellFormed(response, bucket.keys, prefix, token);
      if page.None? {
        return None;
      }
      PageTaken(bucket.keys, prefix, token, response, keys, page.value);
      keys := keys + page.value;
      if !response.truncated {
        return Some(keys);
      }
      SmallerSet(Remaining(bucket.keys, prefix, response.next), Remaining(bucket.keys, prefix, token));
      token := response.next;
    }
  }

  lemma FaithfulIsWellFormed(r: Response, keys: set<string>, prefix: string, token: Option<string>)
    ensures FaithfulPage(r, keys, prefix, token) ==> !Malformed(r, prefix)
  {
    if FaithfulPage(r, keys, prefix, token) {
      var remaining := Sorted(Remaining(keys, prefix, token));
      forall c | c in r.contents.value
        ensures c.Some? && Under(prefix, c.value)
      {
        var i :| 0 <= i < |r.contents.value| && r.contents.value[i] == c;
        assert remaining[i] in remaining;
      }
      if r.truncated {
        var last := r.contents.value[|r.contents.value| - 1];
        assert last in r.contents.value;
      }
    }
  }

  lemma AllReturned(keys: set<string>, prefix: string, token: Option<string>, before: seq<string>, page: seq<string>)
    requires forall k :: k in before <==> k in Returned(keys, prefix, token)
    requires page == Sorted(Remaining(keys, prefix, token))
    ensures forall k :: k in before + page <==> k in Sorted(Owned(keys, prefix))
  {
    forall k | k in Owned(keys, prefix)
      ensures k in before || k in page
    {
      if token.Some? {
        LeqTotal(k, token.value);
      }
    }
  }

  // ---------------------------------------------------------------- deletion

  ghost predicate Sized(batches: seq<seq<string>>) {
    forall i :: 0 <= i < |batches| ==> 0 < |batches[i]| <= 1000 && (i < |batches| - 1 ==> |batches[i]| == 1000)
  }

  /** Cut into batches of 1,000, the last possibly smaller. */
  ghost predicate Batched(batches: seq<seq<string>>, keys: seq<string>) {
    Flatten(batches) == keys && Sized(batches)
  }

  /** On return every owned key is gone; an error leaves a part of them; no other key is ever touched. */
  method DeletePrefix(bucket: Bucket, prefix: string) returns (ok: bool)
    modifies bucket
    ensures bucket.faults >= old(bucket.faults)
    ensures ok <==> bucket.faults == old(bucket.faults)
    ensures ok ==> bucket.keys == old(bucket.keys) - Owned(old(bucket.keys), prefix)
    ensures old(bucket.keys) - Owned(old(bucket.keys), prefix) <= bucket.keys <= old(bucket.keys)
    ensures old(bucket.batches) <= bucket.batches
    ensures ok ==> Batched(bucket.batches[|old(bucket.batches)|..], Sorted(Owned(old(bucket.keys), prefix)))
  {
    var listed := PrefixKeys(bucket, prefix);
    if listed.None? {
      return false;
    }
    var keys := listed.value;
    ghost var owned := Owned(bucket.keys, prefix);
    ghost var batches: seq<seq<string>> := [];
    var index := 0;
    while index < |keys|
      invariant 0 <= index < |keys| + 1000
      invariant bucket.faults == old(bucket.faults)
      invariant bucket.batches == old(bucket.batches) + batches
      invariant Flatten(batches) == keys[..Upto(index, |keys|)]
      invariant Sized(batches)
      invariant index <= |keys| ==> forall i :: 0 <= i < |batches| ==> |batches[i]| == 1000
      invariant bucket.keys == old(bucket.keys) - KeySet(keys[..Upto(index, |keys|)])
    {
      var batch := keys[index..Upto(index + 1000, |keys|)];
      NextBatch(keys, index, owned);
      FlattenAppend(batches, batch);
      var response := bucket.DeleteObjects(batch);
      if response != Errors(Some([])) {
        return false;
      }
      batches := batches + [batch];
      index := index + 1000;
    }
    assert keys[..Upto(index, |keys|)] == keys;
    assert KeySet(keys) == owned;
    return true;
  }

  function Upto(index: nat, n: nat): nat {
    if index <= n then index else n
  }

  function KeySet(keys: seq<string>): set<string> {
    set k | k in keys
  }

  lemma NextBatch(keys: seq<string>, index: nat, owned: set<string>)
    requires index < |keys| && forall k :: k in keys <==> k in owned
    ensures var batch := keys[index..Upto(index + 1000, |keys|)];
      keys[..Upto(index + 1000, |keys|)] == keys[..Upto(index, |keys|)] + batch &&
      KeySet(keys[..Upto(index + 1000, |keys|)]) == KeySet(keys[..Upto(index, |keys|)]) + KeySet(batch) &&
      KeySet(batch) <= owned && KeySet(keys[..Upto(index, |keys|)]) <= owned
  {
    var end := Upto(index + 1000, |keys|);
    assert keys[..end] == keys[..index] + keys[index..end];
    assert forall k :: k in keys[..end] <==> k in keys[..index] || k in keys[index..end];
    assert forall k :: k in keys[..end] ==> k in keys;
  }

  /** A prefix that merely extends this one as a string owns none of its keys, and loses none to it. */
  lemma SiblingUntouched(prefix: string, suffix: string, key: string)
    requires suffix != [] && suffix[0] != '/' && Under(prefix + suffix, key)
    ensures !Under(prefix, key)
  {
    assert key[|prefix|] == (prefix + suffix + "/")[|prefix|] == suffix[0];
    assert (prefix + "/")[|prefix|] == '/';
  }

  // ---------------------------------------------------------------- qualification cleanup

  class Warehouse {
    var schemas: set<string>
    var faults: nat

    constructor (schemas: set<string>)
      ensures this.schemas == schemas && faults == 0
    {
      this.schemas, faults := schemas, 0;
    }

    method Drop(schema: string) returns (ok: bool)
      modifies this
      ensures faults == if ok then old(faults) else old(faults) + 1
      ensures ok ==> schemas == old(schemas) - {schema}
      ensures schemas == old(schemas) || schemas == old(schemas) - {schema}
    {
      ok := *;
      if ok {
        schemas := schemas - {schema};
      } else {
        faults := faults + 1;
      }
    }

    method Has(schema: string) returns (present: Option<bool>)
      modifies `faults
      ensures faults == if present.Some? then old(faults) else old(faults) + 1
      ensures present.Some? ==> (present.value <==> schema in schemas)
    {
      var ok: bool := *;
      if ok {
        return Some(schema in schemas);
      }
      faults := faults + 1;
      return None;
    }
  }

  /**
   After the profile, whether it passed or failed: drop the schema and empty the prefix, each regardless of the other;
   report success only when the profile passed, both cleanups worked, and both resources were then found absent.
  */
  method FinishQualification(warehouse: Warehouse, bucket: Bucket, schema: string, prefix: string, passed: bool)
    returns (verified: bool)
    modifies warehouse, bucket
    ensures warehouse.faults >= old(warehouse.faults) && bucket.faults >= old(bucket.faults)
    ensures verified <==>
      passed && warehouse.faults == old(warehouse.faults) && bucket.faults == old(bucket.faults)
    ensures warehouse.faults == old(warehouse.faults) ==> schema !in warehouse.schemas
    ensures bucket.faults == old(bucket.faults) ==> Owned(bucket.keys, prefix) == {}
    ensures old(warehouse.schemas) - {schema} <= warehouse.schemas <= old(warehouse.schemas)
    ensures old(bucket.keys) - Owned(old(bucket.keys), prefix) <= bucket.keys <= old(bucket.keys)
  {
    var dropped := warehouse.Drop(schema);
    var emptied := DeletePrefix(bucket, prefix);
    if !dropped || !emptied || !passed {
      return false;
    }
    var present := warehouse.Has(schema);
    if present.None? {
      return false;
    }
    var left := PrefixKeys(bucket, prefix);
    if left.None? {
      return false;
    }
    assert Owned(bucket.keys, prefix) == {};
    return !present.value && |left.value| == 0;
  }
}
