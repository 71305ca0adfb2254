/** How a body is delimited does not depend on the order of the header fields, nor
on whether repeated Content-Length values come as several fields or as one list. */
module FramingOrder {
  import opened Octets
  import opened Grammar
  import opened HttpMessage
  import opened Lines
  import Req = RequestMachine
  import Res = ResponseMachine

  // ── rearranging a sequence ──────────────────────────────────────────────────

  function FlatMap<A, B>(f: A -> seq<B>, s: seq<A>): (r: seq<B>)
  {
    if s == [] then [] else f(s[0]) + FlatMap(f, s[1..])
  }

  lemma {:induction false} FlatMapAppend<A, B>(f: A -> seq<B>, a: seq<A>, b: seq<A>)
    ensures FlatMap(f, a + b) == FlatMap(f, a) + FlatMap(f, b)
  {
    if a == [] {
      assert a + b == b;
    } else {
      assert (a + b)[1..] == a[1..] + b;
      FlatMapAppend(f, a[1..], b);
    }
  }

  lemma WithoutOne<A>(x: A, rest: seq<A>, before: seq<A>, after: seq<A>)
    requires multiset([x] + rest) == multiset(before + [x] + after)
    ensures multiset(rest) == multiset(before + after)
  {
    assert multiset([x] + rest) == multiset{x} + multiset(rest);
    assert multiset(before + [x] + after) == multiset(before) + multiset{x} + multiset(after);
    assert multiset(rest) == multiset([x] + rest) - multiset{x};
  }

  /** Rearranging the input rearranges the output. */
  lemma {:induction false} FlatMapRearranged<A, B>(f: A -> seq<B>, s: seq<A>, t: seq<A>)
    requires multiset(s) == multiset(t)
    ensures multiset(FlatMap(f, s)) == multiset(FlatMap(f, t))
    decreases |s|
  {
    if s == [] {
      assert |multiset(t)| == 0;
    } else {
      var x := s[0];
      assert s == [x] + s[1..];
      assert x in multiset(t);
      var j :| 0 <= j < |t| && t[j] == x;
      var before, after := t[..j], t[j + 1..];
      assert t == before + [x] + after;
      WithoutOne(x, s[1..], before, after);
      FlatMapRearranged(f, s[1..], before + after);
      FlatMapAppend(f, before, after);
      FlatMapAppend(f, before + [x], after);
      FlatMapAppend(f, before, [x]);
      assert FlatMap(f, [x]) == f(x) + FlatMap(f, [x][1..]) == f(x);
    }
  }

  // ── header values ───────────────────────────────────────────────────────────

  function ValueIf(name: string): (r: Field -> seq<string>)
  {
    (f: Field) => if NamesEqual(f.name, name) then [f.value] else []
  }

  lemma {:induction false} GetAllIsFlatMap(h: Headers, name: string)
    ensures GetAll(h, name) == FlatMap(ValueIf(name), h)
  {
    hide NamesEqual;
    if h != [] {
      GetAllIsFlatMap(h[1..], name);
    }
  }

  lemma {:induction false} ValuesRearranged(g: Headers, h: Headers, name: string)
    requires multiset(g) == multiset(h)
    ensures multiset(GetAll(g, name)) == multiset(GetAll(h, name))
  {
    GetAllIsFlatMap(g, name);
    GetAllIsFlatMap(h, name);
    FlatMapRearranged(ValueIf(name), g, h);
  }

  lemma {:induction false} LengthItemsIsFlatMap(values: seq<string>)
    ensures Res.LengthItems(values) == FlatMap(RawItems, values)
  {
    hide RawItems;
    if values != [] {
      LengthItemsIsFlatMap(values[1..]);
    }
  }

  lemma {:induction false} SplitAllIsFlatMap(values: seq<string>)
    ensures Req.SplitAll(values) == FlatMap(SplitList, values)
  {
    hide SplitList;
    if values != [] {
      SplitAllIsFlatMap(values[1..]);
    }
  }

  lemma SizeOf<T>(s: seq<T>, t: seq<T>)
    requires multiset(s) == multiset(t)
    ensures |s| == |t|
    ensures |s| == 1 ==> s == t
  {
    assert |s| == |multiset(s)| && |t| == |multiset(t)|;
    if |s| == 1 {
      assert s[0] in multiset(s) && s[0] in multiset(t);
    }
  }

  lemma AllAreRearranged(s: seq<string>, t: seq<string>, n: nat)
    requires multiset(s) == multiset(t) && AllAre(s, n)
    ensures AllAre(t, n)
  {
    hide ParseNumber;
    forall i | 0 <= i < |t| ensures ParseNumber(t[i], 10) == Some(n) {
      assert t[i] in multiset(t) && t[i] in multiset(s);
      var j :| 0 <= j < |s| && s[j] == t[i];
    }
  }

  /** The same acceptance, and the same value if accepted. */
  predicate SameVerdict<T(==)>(a: Result<T>, b: Result<T>)
  {
    a.Ok? == b.Ok? && (a.Ok? ==> a.value == b.value)
  }

  lemma {:induction false} AgreedOneWay(s: seq<string>, t: seq<string>)
    requires multiset(s) == multiset(t) && Agreed(s, None).Ok?
    ensures Agreed(t, None) == Agreed(s, None)
  {
    hide Agreed, ParseNumber;
    SizeOf(s, t);
    var v := Agreed(s, None).value;
    if v.Some? {
      AgreedMeans(s, None, v.value);
      AllAreRearranged(s, t, v.value);
      AgreedMeans(t, None, v.value);
    } else {
      AgreedMeans(s, None, 0);
      AgreedMeans(t, None, 0);
    }
  }

  lemma {:induction false} AgreedRearranged(s: seq<string>, t: seq<string>)
    requires multiset(s) == multiset(t)
    ensures SameVerdict(Agreed(s, None), Agreed(t, None))
  {
    hide Agreed;
    if Agreed(s, None).Ok? {
      AgreedOneWay(s, t);
    }
    if Agreed(t, None).Ok? {
      AgreedOneWay(t, s);
    }
  }

  // ── order does not matter ───────────────────────────────────────────────────

  lemma {:induction false} ValuesAlike(g: Headers, h: Headers, name: string)
    requires multiset(g) == multiset(h)
    ensures GetAll(g, name) == [] <==> GetAll(h, name) == []
    ensures |GetAll(g, name)| == |GetAll(h, name)|
    ensures |GetAll(g, name)| == 1 ==> GetAll(g, name) == GetAll(h, name)
    ensures SameVerdict(Agreed(Res.LengthItems(GetAll(g, name)), None), Agreed(Res.LengthItems(GetAll(h, name)), None))
    ensures SameVerdict(Agreed(Req.SplitAll(GetAll(g, name)), None), Agreed(Req.SplitAll(GetAll(h, name)), None))
    ensures Req.OnlyChunked(Req.SplitAll(GetAll(g, name))) <==> Req.OnlyChunked(Req.SplitAll(GetAll(h, name)))
  {
    hide GetAll, Agreed, RawItems, SplitList, FlatMap, NamesEqual;
    var a, b := GetAll(g, name), GetAll(h, name);
    ValuesRearranged(g, h, name);
    SizeOf(a, b);
    LengthItemsIsFlatMap(a);
    LengthItemsIsFlatMap(b);
    FlatMapRearranged(RawItems, a, b);
    AgreedRearranged(Res.LengthItems(a), Res.LengthItems(b));
    SplitAllIsFlatMap(a);
    SplitAllIsFlatMap(b);
    FlatMapRearranged(SplitList, a, b);
    AgreedRearranged(Req.SplitAll(a), Req.SplitAll(b));
    SizeOf(Req.SplitAll(a), Req.SplitAll(b));
  }

  /** The request parser frames alike however the fields are ordered. */
  lemma RequestFramingOrderBlind(g: Headers, h: Headers, version: Version, maxBodySize: nat)
    requires multiset(g) == multiset(h)
    ensures SameVerdict(Req.FramingOf(g, version, maxBodySize), Req.FramingOf(h, version, maxBodySize))
  {
    hide GetAll, Agreed, Req.SplitAll, Req.OnlyChunked, Res.LengthItems;
    ValuesAlike(g, h, "Transfer-Encoding");
    ValuesAlike(g, h, "Content-Length");
  }

  /** So does the response parser. */
  lemma ResponseFramingOrderBlind(g: Headers, h: Headers, version: Version, status: nat, meth: Method)
    requires multiset(g) == multiset(h)
    ensures SameVerdict(Res.FramingOf(g, version, status, meth), Res.FramingOf(h, version, status, meth))
  {
    hide GetAll, Agreed, Req.SplitAll, Req.OnlyChunked, Res.LengthItems, NamesEqual;
    ValuesAlike(g, h, "Transfer-Encoding");
    ValuesAlike(g, h, "Content-Length");
  }

  // ── several fields or one list ──────────────────────────────────────────────

  predicate NamesLength(f: Field)
  {
    NamesEqual(f.name, "Content-Length")
  }

  /** Pieces joined by commas. */
  function ListText(pieces: seq<string>): (s: string)
    requires pieces != []
  {
    if |pieces| == 1 then pieces[0] else pieces[0] + "," + ListText(pieces[1..])
  }

  ghost predicate Padded(piece: string, value: string)
  {
    exists i: nat :: SurroundedByOws(piece, i, value)
  }

  /** `merged` lists the values of these Content-Length fields in order, with any
      whitespace around each. */
  ghost predicate Merges(fields: Headers, pieces: seq<string>, merged: Field)
  {
    && fields != [] && |pieces| == |fields|
    && (forall i :: 0 <= i < |fields| ==> NamesLength(fields[i]) && Padded(pieces[i], fields[i].value))
    && NamesLength(merged) && merged.value == ListText(pieces)
  }

  function Values(fields: Headers): (r: seq<string>)
  {
    if fields == [] then [] else [fields[0].value] + Values(fields[1..])
  }

  lemma LengthIsNotEncoding(name: string)
    requires NamesEqual(name, "Content-Length")
    ensures !NamesEqual(name, "Transfer-Encoding")
  {
    assert |"Content-Length"| == 14 && |"Transfer-Encoding"| == 17;
  }

  lemma {:induction false} LengthValues(fields: Headers)
    requires forall i :: 0 <= i < |fields| ==> NamesLength(fields[i])
    ensures GetAll(fields, "Content-Length") == Values(fields)
    ensures GetAll(fields, "Transfer-Encoding") == []
  {
    hide NamesEqual;
    if fields != [] {
      LengthIsNotEncoding(fields[0].name);
      LengthValues(fields[1..]);
    }
  }

  /** The items of a list are those of its pieces, empty ones kept or dropped. */
  lemma {:induction false} ListItems(pieces: seq<string>)
    requires pieces != []
    ensures RawItems(ListText(pieces)) == FlatMap(RawItems, pieces)
    ensures SplitList(ListText(pieces)) == FlatMap(SplitList, pieces)
  {
    hide RawItems, SplitList;
    if |pieces| > 1 {
      ListItems(pieces[1..]);
      RawItemsJoin(pieces[0], ListText(pieces[1..]));
      SplitListJoin(pieces[0], ListText(pieces[1..]));
    } else {
      FlatMapOne(RawItems, pieces[0]);
      FlatMapOne(SplitList, pieces[0]);
      assert pieces == [pieces[0]];
    }
  }

  lemma FlatMapOne(f: string -> seq<string>, x: string)
    ensures FlatMap(f, [x]) == f(x)
  {
    assert [x][1..] == [];
    assert f(x) + [] == f(x);
  }

  lemma {:induction false} PaddedItems(pieces: seq<string>, fields: Headers)
    requires |pieces| == |fields| && forall i :: 0 <= i < |fields| ==> Padded(pieces[i], fields[i].value)
    ensures FlatMap(RawItems, pieces) == FlatMap(RawItems, Values(fields))
    ensures FlatMap(SplitList, pieces) == FlatMap(SplitList, Values(fields))
  {
    hide RawItems, DropEmpty;
    if fields != [] {
      var i: nat :| SurroundedByOws(pieces[0], i, fields[0].value);
      ItemsPadded(pieces[0], i, fields[0].value);
      PaddedItems(pieces[1..], fields[1..]);
      assert Values(fields)[1..] == Values(fields[1..]);
    }
  }

  /** All that framing looks at is the same. */
  lemma {:induction false} MergedItems(h: Headers, fields: Headers, pieces: seq<string>, merged: Field)
    requires Merges(fields, pieces, merged)
    ensures var a, b := GetAll(h + fields, "Content-Length"), GetAll(h + [merged], "Content-Length");
            && a != [] && b != []
            && Res.LengthItems(a) == Res.LengthItems(b) && Req.SplitAll(a) == Req.SplitAll(b)
    ensures GetAll(h + fields, "Transfer-Encoding") == GetAll(h + [merged], "Transfer-Encoding")
  {
    hide GetAll, RawItems, SplitList, FlatMap, Padded, NamesLength, ListText;
    LengthValues(fields);
    LengthValues([merged]);
    GetAllAppend(h, fields, "Content-Length");
    GetAllAppend(h, [merged], "Content-Length");
    GetAllAppend(h, fields, "Transfer-Encoding");
    GetAllAppend(h, [merged], "Transfer-Encoding");
    var before, many, one := GetAll(h, "Content-Length"), Values(fields), Values([merged]);
    assert one == [merged.value];
    LengthItemsIsFlatMap(before + many);
    LengthItemsIsFlatMap(before + one);
    SplitAllIsFlatMap(before + many);
    SplitAllIsFlatMap(before + one);
    FlatMapAppend(RawItems, before, many);
    FlatMapAppend(RawItems, before, one);
    FlatMapAppend(SplitList, before, many);
    FlatMapAppend(SplitList, before, one);
    FlatMapOne(RawItems, merged.value);
    FlatMapOne(SplitList, merged.value);
    ListItems(pieces);
    PaddedItems(pieces, fields);
  }

  lemma {:induction false} MergedFramesAlike(
      h: Headers, fields: Headers, pieces: seq<string>, merged: Field,
      version: Version, maxBodySize: nat, status: nat, meth: Method)
    requires Merges(fields, pieces, merged)
    ensures Req.FramingOf(h + fields, version, maxBodySize) == Req.FramingOf(h + [merged], version, maxBodySize)
    ensures Res.FramingOf(h + fields, version, status, meth) == Res.FramingOf(h + [merged], version, status, meth)
  {
    hide GetAll, Agreed, Req.SplitAll, Req.OnlyChunked, Res.LengthItems, NamesEqual, Merges;
    MergedItems(h, fields, pieces, merged);
  }

  /** Any number of Content-Length fields, wherever they stand and whatever others
      there are, frame as their values in one comma list do, in the request
      parser; read from right to left, a list may be split. */
  lemma {:induction false} RequestLengthsMerge(
      g: Headers, h: Headers, others: Headers, fields: Headers, pieces: seq<string>, merged: Field,
      version: Version, maxBodySize: nat)
    requires Merges(fields, pieces, merged)
    requires multiset(g) == multiset(others + fields) && multiset(h) == multiset(others + [merged])
    ensures SameVerdict(Req.FramingOf(g, version, maxBodySize), Req.FramingOf(h, version, maxBodySize))
  {
    hide Req.FramingOf, Merges;
    RequestFramingOrderBlind(g, others + fields, version, maxBodySize);
    RequestFramingOrderBlind(h, others + [merged], version, maxBodySize);
    MergedFramesAlike(others, fields, pieces, merged, version, maxBodySize, 200, Get);
  }

  /** And in the response parser. */
  lemma {:induction false} ResponseLengthsMerge(
      g: Headers, h: Headers, others: Headers, fields: Headers, pieces: seq<string>, merged: Field,
      version: Version, status: nat, meth: Method)
    requires Merges(fields, pieces, merged)
    requires multiset(g) == multiset(others + fields) && multiset(h) == multiset(others + [merged])
    ensures SameVerdict(Res.FramingOf(g, version, status, meth), Res.FramingOf(h, version, status, meth))
  {
    hide Res.FramingOf, Merges;
    ResponseFramingOrderBlind(g, others + fields, version, status, meth);
    ResponseFramingOrderBlind(h, others + [merged], version, status, meth);
    MergedFramesAlike(others, fields, pieces, merged, version, 0, status, meth);
  }
}
