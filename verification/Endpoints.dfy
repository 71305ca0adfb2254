/** The address list a resolution yields: no duplicates, bounded, never empty. */
module Endpoints {

  datatype Failure = InvalidArgument | LimitExceeded | NoName | Backend(code: int)

  datatype Answer = Found(list: seq<Endpoint>) | Failed(failure: Failure)

  /** An address. `host` is what identity goes by: family, port, address and
      scope; `other` stands for the remaining octets, `valid` for there being any. */
  datatype Endpoint = Endpoint(host: nat, other: nat, valid: bool)

  predicate Same(a: Endpoint, b: Endpoint)
  {
    a.host == b.host
  }

  predicate Listed(out: seq<Endpoint>, e: Endpoint)
  {
    exists i :: 0 <= i < |out| && Same(e, out[i])
  }

  function Append(out: seq<Endpoint>, e: Endpoint, limit: nat): (r: Answer)
  {
    if !e.valid then Failed(InvalidArgument)
    else if Listed(out, e) then Found(out)
    else if |out| == limit then Failed(LimitExceeded)
    else Found(out + [e])
  }

  function AppendAll(out: seq<Endpoint>, list: seq<Endpoint>, limit: nat): (r: Answer)
    decreases |list|
  {
    if list == [] then Found(out)
    else
      var next := Append(out, list[0], limit);
      if next.Failed? then next else AppendAll(next.list, list[1..], limit)
  }

  /** What a worker makes of its backend's answer. */
  function Cleaned(answer: Answer, limit: nat): (r: Answer)
  {
    if answer.Failed? then answer
    else
      var unique := AppendAll([], answer.list, limit);
      if unique.Failed? then unique
      else if unique.list == [] then Failed(NoName)
      else unique
  }

  ghost predicate Distinct(list: seq<Endpoint>)
  {
    forall i, j :: 0 <= i < j < |list| ==> !Same(list[i], list[j])
  }

  /** Ready to be published: a failure, or a usable list. */
  ghost predicate Presentable(r: Answer, limit: nat)
  {
    r.Found? ==> r.list != [] && |r.list| <= limit && Distinct(r.list)
  }

  /** Appending keeps the list distinct and bounded, and covers what was given. */
  lemma {:induction false} AppendAllMeans(out: seq<Endpoint>, list: seq<Endpoint>, limit: nat)
    requires Distinct(out) && |out| <= limit && AppendAll(out, list, limit).Found?
    ensures var r := AppendAll(out, list, limit).list;
      && Distinct(r) && |r| <= limit && out <= r
      && (forall i :: 0 <= i < |list| ==> Listed(r, list[i]))
      && (forall i :: |out| <= i < |r| ==> r[i] in list)
    decreases |list|
  {
    if list != [] {
      var next := Append(out, list[0], limit).list;
      assert Distinct(next);
      AppendAllMeans(next, list[1..], limit);
      var r := AppendAll(out, list, limit).list;
      assert Listed(next, list[0]) by {
        if !Listed(out, list[0]) {
          assert Same(list[0], next[|out|]);
        }
      }
      var k :| 0 <= k < |next| && Same(list[0], next[k]);
      assert r[k] == next[k];
      forall i | 0 <= i < |list| ensures Listed(r, list[i]) {
        assert i > 0 ==> list[i] == list[1..][i - 1];
      }
      forall i | |out| <= i < |r| ensures r[i] in list {
        if i < |next| {
          assert r[i] == next[i] == list[0];
        } else {
          assert r[i] in list[1..];
        }
      }
    }
  }

  /** A cleaned answer is non-empty, free of duplicates, within the limit, and has
      exactly the addresses of the backend's. */
  lemma CleanedMeans(answer: Answer, limit: nat)
    ensures Presentable(Cleaned(answer, limit), limit)
    ensures Cleaned(answer, limit).Found? ==>
      && answer.Found?
      && (forall i :: 0 <= i < |answer.list| ==> Listed(Cleaned(answer, limit).list, answer.list[i]))
      && (forall e :: e in Cleaned(answer, limit).list ==> e in answer.list)
  {
    if answer.Found? && AppendAll([], answer.list, limit).Found? {
      AppendAllMeans([], answer.list, limit);
    }
  }

  /** Each address where it comes up first. */
  function FirstOnes(list: seq<Endpoint>): (r: seq<Endpoint>)
  {
    if list == [] then []
    else
      var n := |list| - 1;
      var before := FirstOnes(list[..n]);
      if exists k :: 0 <= k < n && Same(list[k], list[n]) then before else before + [list[n]]
  }

  lemma {:induction false} FirstOnesList(list: seq<Endpoint>, e: Endpoint)
    ensures Listed(FirstOnes(list), e) <==> exists k :: 0 <= k < |list| && Same(list[k], e)
  {
    if list != [] {
      var n := |list| - 1;
      var before := FirstOnes(list[..n]);
      FirstOnesList(list[..n], e);
      assert forall k :: 0 <= k < n ==> list[..n][k] == list[k];
      assert Listed(before + [list[n]], e) <==> Listed(before, e) || Same(e, list[n]) by {
        assert forall k :: 0 <= k < |before| ==> (before + [list[n]])[k] == before[k];
        assert (before + [list[n]])[|before|] == list[n];
      }
    }
  }

  lemma {:induction false} FirstOnesGrow(a: seq<Endpoint>, b: seq<Endpoint>)
    ensures |FirstOnes(a)| <= |FirstOnes(a + b)|
    decreases |b|
  {
    if b == [] {
      assert a + b == a;
    } else {
      assert (a + b)[..|a + b| - 1] == a + b[..|b| - 1];
      FirstOnesGrow(a, b[..|b| - 1]);
    }
  }

  lemma {:induction false} FirstOnesNext(a: seq<Endpoint>, e: Endpoint)
    ensures FirstOnes(a + [e]) == if Listed(FirstOnes(a), e) then FirstOnes(a) else FirstOnes(a) + [e]
  {
    FirstOnesList(a, e);
    assert (a + [e])[..|a|] == a;
    assert forall k :: 0 <= k < |a| ==> (a + [e])[k] == a[k];
  }

  /** Appending succeeds exactly if every address is valid and there is room for all
      that differ, and then it keeps each where it came up first. */
  lemma {:induction false} AppendAllExactly(a: seq<Endpoint>, b: seq<Endpoint>, limit: nat)
    requires |FirstOnes(a)| <= limit
    ensures var r := AppendAll(FirstOnes(a), b, limit);
      if (forall i :: 0 <= i < |b| ==> b[i].valid) && |FirstOnes(a + b)| <= limit then r == Found(FirstOnes(a + b))
      else r.Failed?
    decreases |b|
  {
    hide FirstOnes;
    if b == [] {
      assert a + b == a;
    } else {
      var e, tail := b[0], b[1..];
      assert a + b == a + [e] + tail;
      assert forall i :: 0 <= i < |b| ==> b[i] == if i == 0 then e else tail[i - 1];
      FirstOnesNext(a, e);
      FirstOnesGrow(a + [e], tail);
      if e.valid && |FirstOnes(a + [e])| <= limit {
        AppendAllExactly(a + [e], tail, limit);
      }
    }
  }

  /** A successful answer of the backend is passed on, each address once and in order,
      exactly if there is one, all are valid and they fit the limit. */
  lemma {:induction false} CleanedExactly(list: seq<Endpoint>, limit: nat)
    ensures var unique := FirstOnes(list);
      if list != [] && (forall i :: 0 <= i < |list| ==> list[i].valid) && |unique| <= limit
      then Cleaned(Found(list), limit) == Found(unique)
      else Cleaned(Found(list), limit).Failed?
  {
    hide FirstOnes, AppendAll;
    SomeFirst(list);
    AppendAllExactly([], list, limit);
    assert [] + list == list;
  }

  lemma {:induction false} SomeFirst(list: seq<Endpoint>)
    ensures FirstOnes([]) == [] && (list != [] ==> FirstOnes(list) != [])
  {
    if list != [] {
      FirstOnesGrow([list[0]], list[1..]);
      assert [list[0]] + list[1..] == list;
    }
  }

  method AppendOne(out: seq<Endpoint>, e: Endpoint, limit: nat) returns (r: Answer)
    ensures r == Append(out, e, limit)
  {
    if !e.valid {
      return Failed(InvalidArgument);
    }
    for i := 0 to |out|
      invariant forall k :: 0 <= k < i ==> !Same(e, out[k])
    {
      if Same(e, out[i]) {
        return Found(out);
      }
    }
    if |out| == limit {
      return Failed(LimitExceeded);
    }
    r := Found(out + [e]);
  }

  method Clean(answer: Answer, limit: nat) returns (r: Answer)
    ensures r == Cleaned(answer, limit)
  {
    hide Append;
    if answer.Failed? {
      return answer;
    }
    var unique := [];
    for i := 0 to |answer.list|
      invariant AppendAll(unique, answer.list[i..], limit) == AppendAll([], answer.list, limit)
    {
      assert answer.list[i..][1..] == answer.list[i + 1..];
      var added := AppendOne(unique, answer.list[i], limit);
      if added.Failed? {
        return added;
      }
      unique := added.list;
    }
    if unique == [] {
      return Failed(NoName);
    }
    r := Found(unique);
  }
}
