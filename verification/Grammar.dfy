/** Character classes, optional whitespace and comma lists (section 5.6 of RFC 9110). */
module Grammar {
  import opened Octets

  predicate IsTchar(c: char)
  {
    || 'a' <= c <= 'z' || 'A' <= c <= 'Z' || '0' <= c <= '9'
    || c in "!#$%&'*+-.^_`|~"
  }

  predicate IsFieldVchar(c: char)
  {
    c == '\t' || (c >= ' ' && c != '\U{7F}')
  }

  predicate IsOws(c: char)
  {
    c == ' ' || c == '\t'
  }

  predicate AllTchars(s: string)
  {
    forall i :: 0 <= i < |s| ==> IsTchar(s[i])
  }

  predicate AllVchars(s: string)
  {
    forall i :: 0 <= i < |s| ==> IsFieldVchar(s[i])
  }

  // ── optional whitespace ─────────────────────────────────────────────────────

  function TrimFront(s: string): (r: string)
  {
    if s == "" || !IsOws(s[0]) then s else TrimFront(s[1..])
  }

  function TrimBack(s: string): (r: string)
  {
    if s == "" || !IsOws(s[|s| - 1]) then s else TrimBack(s[..|s| - 1])
  }

  /** A field value without the whitespace that may surround it. */
  function TrimOws(s: string): (r: string)
  {
    TrimBack(TrimFront(s))
  }

  ghost predicate SurroundedByOws(s: string, i: nat, r: string)
  {
    && i + |r| <= |s| && s[i..i + |r|] == r
    && forall k :: 0 <= k < i || i + |r| <= k < |s| ==> IsOws(s[k])
  }

  /** Trimming removes only whitespace, and all of it, from both ends. */
  lemma TrimMeaning(s: string)
    ensures var r := TrimOws(s);
            && |r| <= |s|
            && (r == "" || (!IsOws(r[0]) && !IsOws(r[|r| - 1])))
            && (AllVchars(s) ==> AllVchars(r))
            && exists i: nat :: SurroundedByOws(s, i, r)
  {
    TrimFrontMeaning(s);
    TrimBackMeaning(TrimFront(s));
    var i := |s| - |TrimFront(s)|;
    assert SurroundedByOws(s, i, TrimOws(s));
  }

  lemma {:induction false} TrimFrontMeaning(s: string)
    ensures var r := TrimFront(s);
            && |r| <= |s| && r == s[|s| - |r|..]
            && (r == "" || !IsOws(r[0]))
            && (forall k :: 0 <= k < |s| - |r| ==> IsOws(s[k]))
  {
    if s != "" && IsOws(s[0]) {
      var tail, r := s[1..], TrimFront(s);
      TrimFrontMeaning(tail);
      assert tail[|tail| - |r|..] == s[|s| - |r|..];
      forall k | 0 <= k < |s| - |r| ensures IsOws(s[k]) {
        assert k == 0 || s[k] == tail[k - 1];
      }
    }
  }

  lemma {:induction false} TrimBackMeaning(s: string)
    ensures var r := TrimBack(s);
            && |r| <= |s| && r == s[..|r|]
            && (r == "" || !IsOws(r[|r| - 1]))
            && (forall k :: |r| <= k < |s| ==> IsOws(s[k]))
  {
    if s != "" && IsOws(s[|s| - 1]) {
      TrimBackMeaning(s[..|s| - 1]);
    }
  }

  /** Whitespace in front of a value does not change what it trims to. */
  lemma TrimSkipsSpace(s: string)
    ensures TrimOws(" " + s) == TrimOws(s)
  {
    assert (" " + s)[1..] == s;
  }

  lemma TrimNothing(s: string)
    requires s == "" || (!IsOws(s[0]) && !IsOws(s[|s| - 1]))
    ensures TrimOws(s) == s
  {
  }

  /** The loop form: shrink a view from the front, then from the back. */
  method Trim(text: string) returns (r: string)
    ensures r == TrimOws(text)
  {
    r := text;
    while r != "" && IsOws(r[0])
      invariant TrimFront(r) == TrimFront(text)
      decreases |r|
    {
      r := r[1..];
    }
    while r != "" && IsOws(r[|r| - 1])
      invariant TrimBack(r) == TrimOws(text)
      decreases |r|
    {
      r := r[..|r| - 1];
    }
  }

  // ── comma lists ─────────────────────────────────────────────────────────────

  /** Items of a comma list, trimmed, empty ones kept. */
  function RawItems(text: string): (items: seq<string>)
    ensures items != []
    decreases |text|
  {
    var comma := Find(text, ',');
    var item := TrimOws(text[..comma]);
    if comma == |text| then [item] else [item] + RawItems(text[comma + 1..])
  }

  /** Items of a comma list, trimmed, empty ones dropped. */
  function SplitList(text: string): (items: seq<string>)
  {
    DropEmpty(RawItems(text))
  }

  function DropEmpty(items: seq<string>): (r: seq<string>)
  {
    if items == [] then []
    else if items[0] == "" then DropEmpty(items[1..])
    else [items[0]] + DropEmpty(items[1..])
  }

  lemma {:induction false} DropEmptyAppend(a: seq<string>, b: seq<string>)
    ensures DropEmpty(a + b) == DropEmpty(a) + DropEmpty(b)
  {
    if a == [] {
      assert a + b == b;
    } else {
      assert (a + b)[1..] == a[1..] + b;
      DropEmptyAppend(a[1..], b);
    }
  }

  lemma {:induction false} FirstCommaOfJoin(a: string, b: string)
    ensures Find(a + "," + b, ',') == Find(a, ',')
    ensures (a + "," + b)[..Find(a, ',')] == a[..Find(a, ',')]
    ensures Find(a, ',') == |a| ==> (a + "," + b)[|a| + 1..] == b
    ensures Find(a, ',') < |a| ==>
              (a + "," + b)[Find(a, ',') + 1..] == a[Find(a, ',') + 1..] + "," + b
  {
    assert a + "," + b == a + ("," + b);
    FindAppend(a, "," + b, ',');
    assert a[..|a|] == a;
  }

  /** Joining two lists by a comma joins their items. */
  lemma {:induction false} RawItemsJoin(a: string, b: string)
    ensures RawItems(a + "," + b) == RawItems(a) + RawItems(b)
    decreases |a|
  {
    hide Find, TrimOws, RawItems;
    var comma := Find(a, ',');
    FirstCommaOfJoin(a, b);
    RawItemsStep(a + "," + b);
    RawItemsStep(a);
    if comma < |a| {
      RawItemsJoin(a[comma + 1..], b);
    }
  }

  lemma SplitListJoin(a: string, b: string)
    ensures SplitList(a + "," + b) == SplitList(a) + SplitList(b)
  {
    RawItemsJoin(a, b);
    DropEmptyAppend(RawItems(a), RawItems(b));
  }

  lemma {:induction false} RawItemsStep(text: string)
    ensures var comma := Find(text, ',');
            RawItems(text) == [TrimOws(text[..comma])]
              + if comma == |text| then [] else RawItems(text[comma + 1..])
  {
    hide Find, TrimOws;
  }

  lemma {:induction false} SplitListStep(text: string)
    ensures var comma := Find(text, ',');
            SplitList(text) == DropEmpty([TrimOws(text[..comma])])
              + if comma == |text| then [] else SplitList(text[comma + 1..])
  {
    hide Find, TrimOws, DropEmpty, RawItems;
    RawItemsStep(text);
    var comma := Find(text, ',');
    if comma < |text| {
      DropEmptyAppend([TrimOws(text[..comma])], RawItems(text[comma + 1..]));
    } else {
      assert RawItems(text) == [TrimOws(text[..comma])];
    }
  }

  // ── trimming a value does not change its list ───────────────────────────────

  lemma TrimSkipsFront(c: char, s: string)
    requires IsOws(c)
    ensures TrimOws([c] + s) == TrimOws(s)
  {
    assert ([c] + s)[1..] == s;
  }

  lemma {:induction false} TrimFrontAppend(s: string, c: char)
    requires IsOws(c)
    ensures TrimFront(s + [c]) == if TrimFront(s) == "" then "" else TrimFront(s) + [c]
  {
    if s == "" {
      assert s + [c] == [c] && [c][1..] == "";
    } else if IsOws(s[0]) {
      assert (s + [c])[1..] == s[1..] + [c];
      TrimFrontAppend(s[1..], c);
    }
  }

  lemma TrimSkipsBack(s: string, c: char)
    requires IsOws(c)
    ensures TrimOws(s + [c]) == TrimOws(s)
  {
    TrimFrontAppend(s, c);
    var t := TrimFront(s);
    if t != "" {
      assert (t + [c])[..|t|] == t;
    }
  }

  lemma {:induction false} ItemsSkipFront(c: char, s: string)
    requires IsOws(c)
    ensures RawItems([c] + s) == RawItems(s)
  {
    hide Find, TrimOws, RawItems;
    var text := [c] + s;
    var comma := Find(s, ',');
    assert text[..comma + 1] == [c] + s[..comma];
    FindUnique(text, ',', comma + 1);
    RawItemsStep(text);
    RawItemsStep(s);
    TrimSkipsFront(c, s[..comma]);
    assert comma < |s| ==> text[comma + 2..] == s[comma + 1..];
  }

  lemma {:induction false} ItemsSkipBack(s: string, c: char)
    requires IsOws(c)
    ensures RawItems(s + [c]) == RawItems(s)
    decreases |s|
  {
    hide Find, TrimOws, RawItems;
    var text := s + [c];
    var comma := Find(s, ',');
    RawItemsStep(text);
    RawItemsStep(s);
    assert s[..|s|] == s && text[..|text|] == text;
    if comma < |s| {
      assert text[..comma] == s[..comma];
      FindUnique(text, ',', comma);
      assert text[comma + 1..] == s[comma + 1..] + [c];
      ItemsSkipBack(s[comma + 1..], c);
    } else {
      FindUnique(text, ',', |text|);
      TrimSkipsBack(s, c);
    }
  }

  lemma {:induction false} ItemsTrimFront(s: string)
    ensures RawItems(TrimFront(s)) == RawItems(s)
  {
    hide RawItems;
    if s != "" && IsOws(s[0]) {
      ItemsTrimFront(s[1..]);
      assert [s[0]] + s[1..] == s;
      ItemsSkipFront(s[0], s[1..]);
    }
  }

  lemma {:induction false} ItemsTrimBack(s: string)
    ensures RawItems(TrimBack(s)) == RawItems(s)
  {
    hide RawItems;
    if s != "" && IsOws(s[|s| - 1]) {
      var n := |s| - 1;
      ItemsTrimBack(s[..n]);
      assert s[..n] + [s[n]] == s;
      ItemsSkipBack(s[..n], s[n]);
    }
  }

  lemma SplitTrimmed(s: string)
    ensures SplitList(TrimOws(s)) == SplitList(s)
  {
    hide RawItems, DropEmpty;
    ItemsTrimFront(s);
    ItemsTrimBack(TrimFront(s));
  }

  /** Nor does any whitespace put around it. */
  lemma {:induction false} ItemsPadded(s: string, i: nat, r: string)
    requires SurroundedByOws(s, i, r)
    ensures RawItems(s) == RawItems(r)
    decreases |s|
  {
    hide RawItems;
    var n := |s| - 1;
    if i > 0 {
      assert [s[0]] + s[1..] == s && s[1..][i - 1..i - 1 + |r|] == r;
      ItemsPadded(s[1..], i - 1, r);
      ItemsSkipFront(s[0], s[1..]);
    } else if |r| < |s| {
      assert s[..n] + [s[n]] == s && s[..n][..|r|] == r;
      ItemsPadded(s[..n], 0, r);
      ItemsSkipBack(s[..n], s[n]);
    } else {
      assert s == r;
    }
  }

  /** The loop form of `SplitList`: cut at each comma while text is left. */
  method Split(text: string) returns (items: seq<string>)
    ensures items == SplitList(text)
  {
    items := [];
    var rest := text;
    while rest != ""
      invariant items + SplitList(rest) == SplitList(text)
      decreases |rest|
    {
      SplitListStep(rest);
      var comma := Find(rest, ',');
      var item := Trim(rest[..comma]);
      if item != "" {
        items := items + [item];
      }
      if comma == |rest| {
        return;
      }
      rest := rest[comma + 1..];
    }
    assert RawItems("") == [""];
  }
}
