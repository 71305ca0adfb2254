/** What both parsers do with their input before looking at it closely: cut off a
line, and make one number of the Content-Length items. */
module Lines {
  import opened Octets
  import opened HttpMessage

  datatype LineResult = NoLine | Line(text: string, consumed: nat) | BadLine(error: Error)

  /** `line`: an unfinished line may hold `limit` octets and, on top, the CR
      that waits for its LF. */
  function FindLine(input: string, limit: nat, bareLf: bool): (r: LineResult)
    ensures r.Line? ==> 0 < r.consumed <= |input|
  {
    var lf := Find(input, '\n');
    if lf == |input| then
      var size := if input != "" && input[|input| - 1] == '\r' then |input| - 1 else |input|;
      if size > limit then BadLine(LimitExceeded) else NoLine
    else
      var cr := lf > 0 && input[lf - 1] == '\r';
      if !cr && !bareLf then BadLine(BadLineEnding)
      else
        var content := input[..if cr then lf - 1 else lf];
        if '\r' in content then BadLine(BadLineEnding)
        else if |content| > limit then BadLine(LimitExceeded)
        else Line(content, lf + 1)
  }

  /** Ended as a line may be: by CR LF, or by LF alone where that is allowed. */
  predicate Terminated(octets: string, text: string, bareLf: bool)
  {
    octets == text + CRLF || (bareLf && octets == text + "\n")
  }

  /** A line is found exactly if the input starts with it and its end, it holds
      neither CR nor LF, and it is within the limit; without one there is no LF. */
  lemma {:induction false} LineMeans(input: string, limit: nat, bareLf: bool, text: string, n: nat)
    ensures FindLine(input, limit, bareLf) == Line(text, n) <==>
              && |text| <= limit && '\r' !in text && '\n' !in text
              && n <= |input| && Terminated(input[..n], text, bareLf)
    ensures FindLine(input, limit, bareLf).NoLine? ==> '\n' !in input
  {
    var lf := Find(input, '\n');
    assert input[..|input|] == input;
    if lf < |input| {
      assert input[..lf + 1] == input[..lf] + "\n";
      if lf > 0 && input[lf - 1] == '\r' {
        assert input[..lf + 1] == input[..lf - 1] + CRLF;
      }
    }
    if '\n' !in text && n <= |input| && Terminated(input[..n], text, bareLf) {
      TerminatedAt(input, n, text, bareLf);
    }
    hide Find;
  }

  lemma {:induction false} TerminatedAt(input: string, n: nat, text: string, bareLf: bool)
    requires '\n' !in text && n <= |input| && Terminated(input[..n], text, bareLf)
    ensures n > 0 && Find(input, '\n') == n - 1 && |text| <= n - 1
    ensures input[..n] == text + CRLF ==> n >= 2 && input[n - 2] == '\r' && text == input[..n - 2]
    ensures input[..n] == text + "\n" ==> text == input[..n - 1]
  {
    hide Find;
    var octets := input[..n];
    if octets == text + CRLF {
      assert octets[n - 1] == '\n' && octets[n - 2] == '\r';
      assert input[..n - 2] == octets[..n - 2] == text;
      assert input[..n - 1] == text + "\r";
    } else {
      assert octets[n - 1] == '\n';
      assert input[..n - 1] == octets[..n - 1] == text;
    }
    FindUnique(input, '\n', n - 1);
  }

  /** All items must be the same decimal number. */
  function Agreed(items: seq<string>, sofar: Option<nat>): (r: Result<Option<nat>>)
  {
    if items == [] then Ok(sofar)
    else
      var n := ParseNumber(items[0], 10);
      if n.None? then Err(MalformedContentLength)
      else if sofar.Some? && sofar.value != n.value then Err(InconsistentContentLength)
      else Agreed(items[1..], n)
  }

  lemma {:induction false} AgreedFits(items: seq<string>, sofar: Option<nat>)
    requires sofar.Some? ==> sofar.value < TWO_64
    ensures Agreed(items, sofar).Ok? && Agreed(items, sofar).value.Some? ==>
              Agreed(items, sofar).value.value < TWO_64
  {
    if items != [] && Agreed(items, sofar).Ok? {
      AgreedFits(items[1..], ParseNumber(items[0], 10));
    }
  }

  // ── one number out of many items ────────────────────────────────────────────

  /** Every item is this number. */
  predicate AllAre(items: seq<string>, n: nat)
  {
    forall i :: 0 <= i < |items| ==> ParseNumber(items[i], 10) == Some(n)
  }

  /** Agreement, said about the items as a whole. */
  lemma {:induction false} AgreedMeans(items: seq<string>, sofar: Option<nat>, n: nat)
    ensures Agreed(items, sofar) == Ok(Some(n)) <==>
              AllAre(items, n) && (if sofar.Some? then sofar.value == n else items != [])
    ensures Agreed(items, sofar) == Ok(None) <==> items == [] && sofar.None?
  {
    hide ParseNumber;
    if items != [] {
      var first := ParseNumber(items[0], 10);
      AgreedMeans(items[1..], first, n);
      assert AllAre(items, n) <==> first == Some(n) && AllAre(items[1..], n) by { AllAreTail(items, n); }
    }
  }

  lemma AllAreTail(items: seq<string>, n: nat)
    requires items != []
    ensures AllAre(items, n) <==> ParseNumber(items[0], 10) == Some(n) && AllAre(items[1..], n)
  {
    hide ParseNumber;
    assert forall i :: 1 <= i < |items| ==> items[i] == items[1..][i - 1];
  }
}
