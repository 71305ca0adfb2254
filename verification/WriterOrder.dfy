/** Which sequences of calls a response writer goes along with. */
module WriterOrder {
  import opened Octets
  import opened Grammar
  import opened HttpMessage
  import opened Serializer
  import opened ResponseWriting

  predicate IsHead(call: WriterCall)
  {
    call.Send? || call.Begin?
  }

  /** A head that can be written: three digits of status, no framing fields of the
      caller's own, well-formed fields and reason. */
  predicate GoodHead(response: Response)
  {
    && 100 <= response.status <= 999
    && !Contains(response.headers, "Content-Length") && !Contains(response.headers, "Transfer-Encoding")
    && (forall i :: 0 <= i < |response.headers| ==>
          ValidName(response.headers[i].name) && AllVchars(response.headers[i].value))
    && AllVchars(response.reason)
  }

  /** A body is being streamed at call `i`: it was begun and not finished. */
  ghost predicate Streaming(calls: seq<WriterCall>, i: nat)
    requires i <= |calls|
  {
    exists j :: 0 <= j < i && calls[j].Begin? && forall k :: j < k < i ==> !calls[k].Finish?
  }

  /** One head at most, a good one, and pieces only while a body is streamed; a
      response to an HTTP/1.0 request cannot be streamed. */
  ghost predicate Orderly(calls: seq<WriterCall>)
  {
    && (forall i :: 0 <= i < |calls| && IsHead(calls[i]) ==>
          GoodHead(calls[i].response) && forall j :: 0 <= j < i ==> !IsHead(calls[j]))
    && (forall i :: 0 <= i < |calls| && calls[i].Begin? ==> calls[i].response.version == Http11)
    && (forall i :: 0 <= i < |calls| && calls[i].Piece? ==> Streaming(calls, i))
  }

  /** The response is complete: it was sent in one go, or begun and then finished. */
  ghost predicate Completed(calls: seq<WriterCall>)
  {
    exists j :: 0 <= j < |calls| && (calls[j].Send? || (calls[j].Begin? && exists k :: j < k < |calls| && calls[k].Finish?))
  }

  lemma ErrorMeans(response: Response, framing: Framing)
    ensures ResponseError(response, framing).None? <==>
      GoodHead(response) && (framing.WithChunks? ==> response.version == Http11)
  {
    hide ValidName, AllTchars, GetAll;
  }

  ghost predicate HeadSeen(calls: seq<WriterCall>)
  {
    exists j :: 0 <= j < |calls| && IsHead(calls[j])
  }

  ghost predicate Begun(calls: seq<WriterCall>)
  {
    exists j :: 0 <= j < |calls| && calls[j].Begin?
  }

  /** What the flags say after calls that went well. */
  ghost predicate Flagged(w: Writer, calls: seq<WriterCall>)
  {
    && (w.sentHead <==> HeadSeen(calls))
    && (w.finished <==> Completed(calls))
    && (w.sentHead && !w.finished <==> Streaming(calls, |calls|))
  }

  /** A transcript is all but its last call, then that one. */
  lemma {:induction false} TranscriptEnds(w: Writer, calls: seq<WriterCall>)
    requires calls != []
    ensures var n := |calls| - 1;
      var before := Transcript(w, calls[..n]);
      && (before.Err? ==> Transcript(w, calls).Err?)
      && (before.Ok? ==>
            var last := WriterStep(before.value.0, calls[n]);
            (Transcript(w, calls).Ok? <==> last.Ok?)
            && (last.Ok? ==> Transcript(w, calls).value.0 == last.value.0))
    decreases |calls|
  {
    hide WriterStep;
    var n := |calls| - 1;
    var first := WriterStep(w, calls[0]);
    if n == 0 {
      assert calls[..0] == [] && calls[1..] == [];
    } else if first.Ok? {
      TranscriptEnds(first.value.0, calls[1..]);
      assert calls[1..][..n - 1] == calls[..n][1..];
    }
  }

  lemma SeenStep(calls: seq<WriterCall>, n: nat)
    requires |calls| == n + 1
    ensures HeadSeen(calls) <==> HeadSeen(calls[..n]) || IsHead(calls[n])
    ensures Completed(calls[..n]) || Streaming(calls[..n], n) ==> HeadSeen(calls[..n])
    ensures Streaming(calls[..n], n) ==> Begun(calls[..n])
    ensures Begun(calls[..n]) ==> HeadSeen(calls[..n])
  {
    var before := calls[..n];
    assert forall j :: 0 <= j < n ==> before[j] == calls[j];
  }

  lemma StreamingStep(calls: seq<WriterCall>, n: nat)
    requires |calls| == n + 1
    ensures Streaming(calls, n + 1) <==> calls[n].Begin? || (Streaming(calls[..n], n) && !calls[n].Finish?)
  {
    var before := calls[..n];
    assert forall j :: 0 <= j < n ==> before[j] == calls[j];
    if Streaming(before, n) && !calls[n].Finish? {
      var j :| 0 <= j < n && before[j].Begin? && forall k :: j < k < n ==> !before[k].Finish?;
      assert calls[j].Begin? && forall k :: j < k < n + 1 ==> !calls[k].Finish?;
    }
  }

  lemma CompletedStep(calls: seq<WriterCall>, n: nat)
    requires |calls| == n + 1
    ensures Completed(calls) <==> Completed(calls[..n]) || calls[n].Send? || (calls[n].Finish? && Begun(calls[..n]))
  {
    var before := calls[..n];
    assert forall j :: 0 <= j < n ==> before[j] == calls[j];
    if j, k :| 0 <= j < k < |calls| && calls[j].Begin? && calls[k].Finish? {
      assert before[j].Begin?;
      assert k < n ==> before[k].Finish?;
    }
    if calls[n].Finish? && Begun(before) {
      var j :| 0 <= j < n && before[j].Begin?;
      assert calls[j].Begin? && j < n < |calls| && calls[n].Finish?;
    }
    if Completed(before) {
      var j :| 0 <= j < n && (before[j].Send? || (before[j].Begin? && exists k :: j < k < n && before[k].Finish?));
      if before[j].Begin? {
        var k :| j < k < n && before[k].Finish?;
        assert calls[k].Finish?;
      }
      assert calls[j] == before[j];
    }
  }

  /** The last call is in order, seen from those before it. */
  ghost predicate InOrder(before: seq<WriterCall>, call: WriterCall)
  {
    && (IsHead(call) ==> GoodHead(call.response) && !HeadSeen(before))
    && (call.Begin? ==> call.response.version == Http11)
    && (call.Piece? ==> Streaming(before, |before|))
  }

  lemma StreamingBefore(calls: seq<WriterCall>, n: nat, i: nat)
    requires i <= n <= |calls|
    ensures Streaming(calls[..n], i) <==> Streaming(calls, i)
  {
    var before := calls[..n];
    assert forall j :: 0 <= j < n ==> before[j] == calls[j];
  }

  lemma OrderlyStep(calls: seq<WriterCall>, n: nat)
    requires |calls| == n + 1
    ensures Orderly(calls) <==> Orderly(calls[..n]) && InOrder(calls[..n], calls[n])
  {
    hide Streaming, GoodHead;
    var before := calls[..n];
    assert forall j :: 0 <= j < n ==> before[j] == calls[j];
    forall i | 0 <= i <= n ensures Streaming(before, i) <==> Streaming(calls, i) {
      StreamingBefore(calls, n, i);
    }
  }

  lemma FlaggedStep(w: Writer, calls: seq<WriterCall>, n: nat)
    requires |calls| == n + 1 && Flagged(w, calls[..n])
    ensures WriterStep(w, calls[n]).Ok? <==> InOrder(calls[..n], calls[n])
    ensures WriterStep(w, calls[n]).Ok? ==> Flagged(WriterStep(w, calls[n]).value.0, calls)
  {
    hide Streaming, Completed, HeadSeen, Begun, GoodHead, ResponseError, HeadText, ChunkText, Numeral;
    SeenStep(calls, n);
    StreamingStep(calls, n);
    CompletedStep(calls, n);
    if IsHead(calls[n]) {
      ErrorMeans(calls[n].response, SendFraming(calls[n].response));
      ErrorMeans(calls[n].response, WithChunks);
    }
  }

  /** The writer goes along exactly with orderly calls, and is through exactly when
      the response is complete. */
  lemma {:induction false} OrderlyExactly(headRequest: bool, calls: seq<WriterCall>)
    ensures var t := Transcript(Writer(headRequest, false, false, false), calls);
      && (t.Ok? <==> Orderly(calls))
      && (t.Ok? ==> (t.value.0.finished <==> Completed(calls)) && Flagged(t.value.0, calls))
    decreases |calls|
  {
    hide WriterStep, Orderly, InOrder, Completed, HeadSeen, Streaming;
    if calls == [] {
      NothingCalled(headRequest);
    } else {
      var w, n := Writer(headRequest, false, false, false), |calls| - 1;
      OrderlyExactly(headRequest, calls[..n]);
      TranscriptEnds(w, calls);
      OrderlyStep(calls, n);
      if Orderly(calls[..n]) {
        FlaggedStep(Transcript(w, calls[..n]).value.0, calls, n);
      }
    }
  }

  lemma NothingCalled(headRequest: bool)
    ensures Orderly([]) && Flagged(Writer(headRequest, false, false, false), [])
  {
  }
}
