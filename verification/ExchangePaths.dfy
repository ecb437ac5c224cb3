/** Where a run keeps its exchanges, and why deleting one tree recursively never reaches another. */
module ExchangePaths {
  import opened Text
  import opened GraphConfiguration

  /** A path as the object-store file system sees it: the components between slashes. */
  type Path = seq<string>

  function Split(s: string, c: char): (parts: seq<string>)
    ensures parts != []
    decreases |s|
  {
    var i := IndexOf(s, c);
    if i == |s| then [s] else [s[..i]] + Split(s[i + 1..], c)
  }

  lemma SplitStep(a: string, c: char, b: string)
    requires c !in a
    ensures Split(a + [c] + b, c) == [a] + Split(b, c)
  {
    IndexOfFirst(a, c, b);
    assert (a + [c] + b)[..|a|] == a && (a + [c] + b)[|a| + 1..] == b;
  }

  lemma SplitWhole(a: string, c: char)
    requires c !in a
    ensures Split(a, c) == [a]
  {
    assert forall i :: 0 <= i < |a| ==> a[i] in a;
  }

  const LEFT_JOIN := "left-join"
  const RIGHT_JOIN := "right-join"
  const EXTRACT_TRANSFORM := "extract-transform"
  const EXTRACT_TRANSFORM_A := "extract-transform-a"
  const TRANSFORM_A_TRANSFORM_B := "transform-a-transform-b"

  /** Where one exchange of one attempt of a run is stored. */
  function Uri(bucket: string, runId: string, attempt: nat, name: string): string {
    "gs:" + "/" + ("" + "/" + (bucket + "/" + ("dander-spark" + "/" + ("exchanges" + "/" +
      (runId + "/" + ("attempt-" + Digits(attempt) + "/" + name))))))
  }

  function ExchangePath(bucket: string, runId: string, attempt: nat, name: string): Path {
    ["gs:", "", bucket, "dander-spark", "exchanges", runId, "attempt-" + Digits(attempt), name]
  }

  predicate SlashFree(s: string) {
    '/' !in s
  }

  lemma DigitsSlashFree(n: nat)
    ensures SlashFree("attempt-" + Digits(n))
  {
    var s := "attempt-" + Digits(n);
    forall i | 0 <= i < |s|
      ensures s[i] != '/'
    {
      if 8 <= i {
        assert IsDigit(Digits(n)[i - 8]);
      }
    }
  }

  lemma SafeIdentifierSlashFree(s: string)
    requires SafeIdentifier(s)
    ensures SlashFree(s)
  {
  }

  /** The file system reads an exchange URI as exactly these eight components. */
  lemma UriComponents(bucket: string, runId: string, attempt: nat, name: string)
    requires SlashFree(bucket) && SlashFree(runId) && SlashFree(name)
    ensures Split(Uri(bucket, runId, attempt, name), '/') == ExchangePath(bucket, runId, attempt, name)
  {
    var run := runId + "/" + ("attempt-" + Digits(attempt) + "/" + name);
    RunComponents(runId, attempt, name);
    FixedComponents(run);
    UriComponentsTail(bucket, "dander-spark" + "/" + ("exchanges" + "/" + run));
  }

  lemma RunComponents(runId: string, attempt: nat, name: string)
    requires SlashFree(runId) && SlashFree(name)
    ensures Split(runId + "/" + ("attempt-" + Digits(attempt) + "/" + name), '/') ==
      [runId, "attempt-" + Digits(attempt), name]
  {
    DigitsSlashFree(attempt);
    SplitWhole(name, '/');
    SplitStep("attempt-" + Digits(attempt), '/', name);
    SplitStep(runId, '/', "attempt-" + Digits(attempt) + "/" + name);
  }

  lemma FixedComponents(run: string)
    ensures Split("dander-spark" + "/" + ("exchanges" + "/" + run), '/') ==
      ["dander-spark", "exchanges"] + Split(run, '/')
  {
    SplitStep("exchanges", '/', run);
    SplitStep("dander-spark", '/', "exchanges" + "/" + run);
  }

  lemma UriComponentsTail(bucket: string, tail: string)
    requires SlashFree(bucket)
    ensures Split("gs:" + "/" + ("" + "/" + (bucket + "/" + tail)), '/') == ["gs:", "", bucket] + Split(tail, '/')
  {
    SplitStep(bucket, '/', tail);
    SplitStep("", '/', bucket + "/" + tail);
    SplitStep("gs:", '/', "" + "/" + (bucket + "/" + tail));
  }

  /** A recursive delete of p removes the entry at q. */
  predicate Under(p: Path, q: Path) {
    p <= q
  }

  /** One exchange lies in another's tree only when bucket, run, attempt and exchange are all the same. */
  lemma ExchangesDisjoint(
    bucket: string, runId: string, attempt: nat, name: string,
    bucket': string, runId': string, attempt': nat, name': string)
    ensures Under(ExchangePath(bucket, runId, attempt, name), ExchangePath(bucket', runId', attempt', name')) <==>
      bucket == bucket' && runId == runId' && attempt == attempt' && name == name'
  {
    var p, q := ExchangePath(bucket, runId, attempt, name), ExchangePath(bucket', runId', attempt', name');
    if p <= q {
      assert p == q;
      assert p[2] == q[2] && p[5] == q[5] && p[6] == q[6] && p[7] == q[7];
      assert p[6][8..] == Digits(attempt) && q[6][8..] == Digits(attempt');
      DigitsInjective(attempt, attempt');
    }
  }

  /** URIs of runs with safe identifiers name distinct exchanges: the URI determines run, attempt and exchange. */
  lemma UriInjective(
    bucket: string, runId: string, attempt: nat, name: string, runId': string, attempt': nat, name': string)
    requires SlashFree(bucket) && SafeIdentifier(runId) && SafeIdentifier(runId') && SlashFree(name) && SlashFree(name')
    ensures Uri(bucket, runId, attempt, name) == Uri(bucket, runId', attempt', name') <==>
      runId == runId' && attempt == attempt' && name == name'
  {
    SafeIdentifierSlashFree(runId);
    SafeIdentifierSlashFree(runId');
    UriComponents(bucket, runId, attempt, name);
    UriComponents(bucket, runId', attempt', name');
    ExchangesDisjoint(bucket, runId, attempt, name, bucket, runId', attempt', name');
  }

  /** As strings one exchange URI extends another; as trees they are apart, either way round. */
  lemma StringPrefixIsNotAncestor(bucket: string, runId: string, attempt: nat)
    ensures Uri(bucket, runId, attempt, EXTRACT_TRANSFORM) < Uri(bucket, runId, attempt, EXTRACT_TRANSFORM_A)
    ensures var p := ExchangePath(bucket, runId, attempt, EXTRACT_TRANSFORM);
      var q := ExchangePath(bucket, runId, attempt, EXTRACT_TRANSFORM_A);
      !Under(p, q) && !Under(q, p)
  {
    var head := "gs:" + "/" + ("" + "/" + (bucket + "/" + ("dander-spark" + "/" + ("exchanges" + "/" +
      (runId + "/" + ("attempt-" + Digits(attempt) + "/"))))));
    assert Uri(bucket, runId, attempt, EXTRACT_TRANSFORM) == head + EXTRACT_TRANSFORM;
    assert Uri(bucket, runId, attempt, EXTRACT_TRANSFORM_A) == head + EXTRACT_TRANSFORM_A;
    assert EXTRACT_TRANSFORM_A == EXTRACT_TRANSFORM + "-a";
    assert |EXTRACT_TRANSFORM| != |EXTRACT_TRANSFORM_A|;
    ExchangesDisjoint(bucket, runId, attempt, EXTRACT_TRANSFORM, bucket, runId, attempt, EXTRACT_TRANSFORM_A);
    ExchangesDisjoint(bucket, runId, attempt, EXTRACT_TRANSFORM_A, bucket, runId, attempt, EXTRACT_TRANSFORM);
  }
}
