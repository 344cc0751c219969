/** What every capture keeps to, and how captures of two servers compare. */
module CaptureTheorems {
  import opened GraphModel
  import opened Json
  import opened Capture
  import opened CaptureRun

  // ---- a capture is determined by its world ---------------------------------------------------

  lemma {:induction false} FollowsPrefix(w: World, sent: seq<Message>, k: nat)
    requires Follows(w, sent) && k <= |sent|
    ensures Follows(w, sent[..k]) && (k < |sent| ==> Next(w, sent[..k]) == Some(sent[k]))
    decreases |sent|
  {
    if k == |sent| {
      assert sent[..k] == sent;
    } else {
      var init := sent[..|sent| - 1];
      assert init[..k] == sent[..k];
      FollowsPrefix(w, init, k);
    }
  }

  lemma NextAt(w: World, sent: seq<Message>, k: nat)
    requires Follows(w, sent) && k <= |sent|
    ensures k < |sent| ==> Next(w, sent[..k]) == Some(sent[k])
  {
    FollowsPrefix(w, sent, k);
  }

  lemma Diverge(a: seq<Message>, b: seq<Message>) returns (k: nat)
    ensures k <= |a| && k <= |b| && a[..k] == b[..k]
    ensures k < |a| && k < |b| ==> a[k] != b[k]
  {
    k := 0;
    while k < |a| && k < |b| && a[k] == b[k]
      invariant k <= |a| && k <= |b| && a[..k] == b[..k]
    {
      k := k + 1;
    }
  }

  /** Two complete captures in one world are the same capture. */
  lemma RunsAgree(w: World, a: seq<Message>, b: seq<Message>)
    requires IsRun(w, a) && IsRun(w, b)
    ensures a == b
  {
    var k := Diverge(a, b);
    assert a[..|a|] == a && b[..|b|] == b;
    NextAt(w, a, k);
    NextAt(w, b, k);
  }

  // ---- bounds and order ----------------------------------------------------------------------

  function ListRequests(sent: seq<Message>): nat {
    if sent == [] then 0
    else ListRequests(sent[..|sent| - 1]) + (if sent[|sent| - 1].call.ListTools? then 1 else 0)
  }

  lemma {:induction false} ListRequestsBound(sent: seq<Message>)
    requires forall k :: 0 <= k < |sent| && k < 2 ==> !sent[k].call.ListTools?
    ensures ListRequests(sent) <= if |sent| <= 2 then 0 else |sent| - 2
  {
    if sent != [] { ListRequestsBound(sent[..|sent| - 1]); }
  }

  /** What a message that follows some others is. */
  ghost predicate InOrder(w: World, before: seq<Message>, m: Message) {
    && (before == [] ==> m == Message(Some(1), Initialize, None, None))
    && (|before| > 0 ==> Welcome(w).Ok? && m.session == Welcome(w).value.0 && m.protocol == Welcome(w).value.1)
    && (|before| == 1 ==> m.call == Initialized && m.id == None)
    && (|before| > 1 ==> m.call.ListTools? && m.id == Some(|before|))
    && (|before| == 2 ==> m.call == ListTools(None))
    && (|before| > 2 ==> PageOf(w, before).Ok?)
    && (|before| > 2 ==> m.call == ListTools(Follow(PageOf(w, before).value, CursorOf(before[|before| - 1]))))
    && |before| < 52
  }

  lemma NextInOrder(w: World, before: seq<Message>, m: Message)
    requires Next(w, before) == Some(m) && |before| <= 2 + MAX_PAGES
    ensures InOrder(w, before, m)
  {
  }

  lemma {:induction false} NeverTooMany(w: World, sent: seq<Message>)
    requires Follows(w, sent)
    ensures |sent| <= 2 + MAX_PAGES
  {
    if sent != [] {
      var k := |sent| - 1;
      FollowsPrefix(w, sent, k);
      NeverTooMany(w, sent[..k]);
      NextAt(w, sent, k);
      NextInOrder(w, sent[..k], sent[k]);
    }
  }

  /** Whatever the server does: one initialize with id 1, one notification, then at most 50 list
      requests with ids 2, 3, ..., each asking for the cursor of the page before it, all under the
      session and the protocol version that the reply to initialize settled, and no message before
      that reply carries either. */
  lemma TraceIsBounded(w: World, sent: seq<Message>)
    requires Follows(w, sent)
    ensures forall k :: 0 <= k < |sent| ==> InOrder(w, sent[..k], sent[k])
    ensures |sent| <= 52 && ListRequests(sent) <= 50
  {
    NeverTooMany(w, sent);
    forall k | 0 <= k < |sent| ensures InOrder(w, sent[..k], sent[k]) {
      NextAt(w, sent, k);
      NextInOrder(w, sent[..k], sent[k]);
    }
    forall k | 0 <= k < |sent| && k < 2 ensures !sent[k].call.ListTools? {
      assert InOrder(w, sent[..k], sent[k]);
    }
    ListRequestsBound(sent);
  }

  // ---- completeness --------------------------------------------------------------------------

  lemma {:induction false} NoneMalformed(items: seq<Json>)
    requires Malformed(items) == 0
    ensures |Parsed(items)| == |items| && forall i :: 0 <= i < |items| ==> ParseTool(items[i]) == Some(Parsed(items)[i])
  {
    if items != [] { NoneMalformed(items[..|items| - 1]); }
  }

  /** A capture that is not marked truncated is the whole truth: one tool per advertised entry, in
      order, over all pages, of which the last was final. */
  lemma UntruncatedIsEverything(w: World, sent: seq<Message>)
    requires ManifestOf(w, sent).ok && !ManifestOf(w, sent).truncated
    ensures var m, pages := ManifestOf(w, sent), PagesOf(w, sent);
      && pages != [] && NextCursor(pages[|pages| - 1]).Null?
      && m.malformed == 0 && |m.tools| == |AllItems(pages)| <= 2000
      && forall i :: 0 <= i < |m.tools| ==> ParseTool(AllItems(pages)[i]) == Some(m.tools[i])
  {
    var items := AllItems(PagesOf(w, sent));
    NoneMalformed(items);
    AllSeenUnlessFull(items);
  }

  /** One final page, captured live and read back offline. */
  lemma OnePageReadOffline(w: World, sent: seq<Message>, page: Page, offline: Manifest)
    requires PagesOf(w, sent) == [page] && Listed(page).Some? && NextCursor(page).Null?
    requires var items := Listed(page).value;
      && offline.tools == Parsed(Front(items))
      && offline.truncated == (|items| > MAX_TOOLS || Malformed(Front(items)) > 0)
    ensures var live := ManifestOf(w, sent);
      && live.truncated == offline.truncated && offline.tools <= live.tools
      && (Malformed(Front(Listed(page).value)) == 0 ==> live.tools == offline.tools)
  {
    LiveAndOfflineAgree(page, ManifestOf(w, sent), offline);
  }

  // ---- a reply to another request -----------------------------------------------------------

  /** The number of the k-th message, when it is a request. */
  function RequestId(k: nat): nat { if k <= 1 then 1 else k - 1 }

  /** A reply that carries another number than its request is never read, and the capture stops
      there: it fails when no page came before, and is marked truncated otherwise. */
  lemma AnotherNumberStops(w: World, sent: seq<Message>, k: nat, n: real)
    requires IsRun(w, sent) && 1 <= k <= |sent| && k != 2
    requires Numbered(w.server(sent[..k]), n) && n != RequestId(k) as real && 200 <= w.server(sent[..k]).status < 300
    ensures k == |sent|
    ensures PagesOf(w, sent) == PagesOf(w, sent[..k - 1])
    ensures PagesOf(w, sent) == [] ==>
      ManifestOf(w, sent) == Manifest(false, [], Some(BadJsonRpcResponse), false, 0, "")
    ensures PagesOf(w, sent) != [] ==> ManifestOf(w, sent).ok && ManifestOf(w, sent).truncated
  {
    AnotherNumberIsRefused(w.server(sent[..k]), RequestId(k), n);
    StopsAt(w, sent, k);
  }

  lemma StopsAt(w: World, sent: seq<Message>, k: nat)
    requires IsRun(w, sent) && 1 <= k <= |sent| && Misnumbered(w, sent[..k])
    ensures k == |sent| && PagesOf(w, sent) == PagesOf(w, sent[..k - 1])
    ensures PagesOf(w, sent) == [] ==> ManifestOf(w, sent) == Failed(BadJsonRpcResponse)
    ensures PagesOf(w, sent) != [] ==> ManifestOf(w, sent).ok && ManifestOf(w, sent).truncated
  {
    NextAt(w, sent, 0);
    assert k == 1 ==> sent[..k] == [HELLO];
    FollowsPrefix(w, sent, k);
    NoMoreAfter(w, sent[..k]);
    if k < |sent| { NextAt(w, sent, k); }
    assert sent[..k] == sent;
    if k > 2 {
      NextAt(w, sent, k - 1);
      BeforeTheLast(w, sent);
    }
  }

  /** The last reply was refused for its number. */
  ghost predicate Misnumbered(w: World, sent: seq<Message>) {
    && (|sent| == 1 || |sent| > 2)
    && Answer(w.server(sent), RequestId(|sent|)) == Err(BadJsonRpcResponse)
  }

  lemma NoMoreAfter(w: World, sent: seq<Message>)
    requires Misnumbered(w, sent) && (|sent| == 1 ==> sent == [HELLO])
    ensures Next(w, sent).None? && FailureOf(w, sent) == BadJsonRpcResponse
    ensures PagesOf(w, sent) == PagesOf(w, sent[..|sent| - 1])
  {
  }

  lemma BeforeTheLast(w: World, sent: seq<Message>)
    requires |sent| > 2 && Misnumbered(w, sent) && Next(w, sent[..|sent| - 1]).Some?
    ensures PagesOf(w, sent) != [] ==> !Complete(PagesOf(w, sent))
  {
    NoMoreAfter(w, sent);
    if |sent| > 3 { WentOn(w, sent[..|sent| - 1]); }
  }

  /** A capture that goes on after a page has not read its last. */
  lemma WentOn(w: World, sent: seq<Message>)
    requires |sent| > 2 && Next(w, sent).Some?
    ensures PagesOf(w, sent) != [] && !Complete(PagesOf(w, sent))
  {
    var page := PageOf(w, sent).value;
    assert PagesOf(w, sent)[|PagesOf(w, sent)| - 1] == page;
  }

  // ---- two worlds ----------------------------------------------------------------------------

  /** w answers as w' does, except that it may fail to answer, or run out of time. */
  ghost predicate AnswersAs(w: World, w': World) {
    && w.printable == w'.printable
    && (forall sent :: !w'.late(sent))
    && (forall sent :: w.server(sent) == w'.server(sent) || w.server(sent).Failure?)
  }

  /** The capture ended by a failure of w's own. */
  ghost predicate CutShort(w: World, w': World, sent: seq<Message>) {
    w.late(sent) || (w.server(sent).Failure? && w.server(sent) != w'.server(sent))
  }

  lemma SameWelcome(w: World, w': World)
    requires AnswersAs(w, w') && Welcome(w).Ok?
    ensures Welcome(w') == Welcome(w)
  {
  }

  lemma SamePage(w: World, w': World, sent: seq<Message>)
    requires AnswersAs(w, w') && sent != [] && (PageOf(w, sent).Ok? || w.server(sent) == w'.server(sent))
    ensures PageOf(w', sent) == PageOf(w, sent)
  {
  }

  /** Before its end, a capture in w has read the same pages as one in w' would. */
  lemma {:induction false} SamePages(w: World, w': World, sent: seq<Message>)
    requires AnswersAs(w, w') && Follows(w, sent)
    requires |sent| > 2 ==> PageOf(w, sent).Ok? || w.server(sent) == w'.server(sent)
    ensures PagesOf(w', sent) == PagesOf(w, sent)
  {
    if |sent| > 2 {
      var k := |sent| - 1;
      assert Next(w, sent[..k]) == Some(sent[k]);
      FollowsPrefix(w, sent, k);
      SamePages(w, w', sent[..k]);
      SamePage(w, w', sent);
    }
  }

  /** Once the reply to initialize is in, both worlds have settled the same. */
  lemma Opening(w: World, w': World, sent: seq<Message>)
    requires AnswersAs(w, w') && Follows(w, sent)
    requires |sent| == 1 ==> w.server(sent) == w'.server(sent) || Welcome(w).Ok?
    ensures |sent| > 0 ==> Welcome(w') == Welcome(w)
  {
    if |sent| > 0 {
      NextAt(w, sent, 0);
      NextAt(w, sent, 1);
      assert |sent| == 1 ==> sent == [HELLO];
      if Welcome(w).Ok? { SameWelcome(w, w'); }
    }
  }

  lemma SameNext(w: World, w': World, sent: seq<Message>)
    requires AnswersAs(w, w') && Follows(w, sent) && (Next(w, sent).Some? || !CutShort(w, w', sent))
    ensures Next(w', sent) == Next(w, sent)
  {
    Opening(w, w', sent);
    if |sent| > 2 {
      SamePages(w, w', sent);
      SamePage(w, w', sent);
      SameNextPage(w, w', sent);
    }
  }

  lemma SameNextPage(w: World, w': World, sent: seq<Message>)
    requires |sent| > 2 && PageOf(w', sent) == PageOf(w, sent) && PagesOf(w', sent) == PagesOf(w, sent)
    ensures NextPage(w', sent) == NextPage(w, sent)
  {
  }

  lemma {:induction false} PagesGrow(w: World, sent: seq<Message>, k: nat)
    requires k <= |sent|
    ensures PagesOf(w, sent[..k]) <= PagesOf(w, sent)
    decreases |sent|
  {
    if k == |sent| {
      assert sent[..k] == sent;
    } else if |sent| > 2 {
      assert sent[..|sent| - 1][..k] == sent[..k];
      PagesGrow(w, sent[..|sent| - 1], k);
    }
  }

  /** A capture in w is the capture in w', or a beginning of it that a failure of w's own cut
      short: the same messages, the same pages and, when it was not cut short, the same report. */
  lemma SameCaptureUnlessCutShort(w: World, w': World, a: seq<Message>, b: seq<Message>)
    requires AnswersAs(w, w') && IsRun(w, a) && IsRun(w', b)
    ensures a <= b && PagesOf(w, a) <= PagesOf(w', b)
    ensures CutShort(w, w', a) || (a == b && ManifestOf(w, a) == ManifestOf(w', b))
  {
    var k := Diverge(a, b);
    assert a[..|a|] == a && b[..|b|] == b;
    NextAt(w, a, k);
    NextAt(w', b, k);
    FollowsPrefix(w, a, k);
    if k < |a| || !CutShort(w, w', a) {
      SameNext(w, w', a[..k]);
    }
    assert k == |a|;
    PagesCarry(w, w', a);
    PagesGrow(w', b, k);
    if !CutShort(w, w', a) {
      SameReport(w, w', a);
    }
  }

  lemma PagesCarry(w: World, w': World, sent: seq<Message>)
    requires AnswersAs(w, w') && Follows(w, sent)
    ensures PagesOf(w, sent) <= PagesOf(w', sent)
  {
    if |sent| > 2 {
      var k := |sent| - 1;
      FollowsPrefix(w, sent, k);
      NextAt(w, sent, k);
      SamePages(w, w', sent[..k]);
      if PageOf(w, sent).Ok? { SamePage(w, w', sent); }
    }
  }

  lemma SameReport(w: World, w': World, sent: seq<Message>)
    requires AnswersAs(w, w') && Follows(w, sent) && sent != [] && !CutShort(w, w', sent)
    ensures ManifestOf(w, sent) == ManifestOf(w', sent)
  {
    SamePages(w, w', sent);
    Opening(w, w', sent);
    SameFailure(w, w', sent);
  }

  lemma SameFailure(w: World, w': World, sent: seq<Message>)
    requires Welcome(w') == Welcome(w) && w.server(sent) == w'.server(sent)
    ensures FailureOf(w, sent) == FailureOf(w', sent)
  {
  }

  /** Fewer pages, fewer tools: what was captured before the cut is a beginning of the whole. */
  lemma FewerPagesFewerTools(pages: seq<Page>, more: seq<Page>)
    requires pages <= more
    ensures Clip(Parsed(AllItems(pages))) <= Clip(Parsed(AllItems(more)))
    decreases |more|
  {
    if pages != more {
      var init := more[..|more| - 1];
      FewerPagesFewerTools(pages, init);
      var last := Listed(more[|more| - 1]);
      ParsedConcat(AllItems(init), if last.Some? then last.value else []);
    }
  }

  // ---- a server that answers initialize with the id `true` -----------------------------------

  /** The same server, but for the id of its reply to initialize. */
  function TrueForOne(w: World): World {
    w.(server := (sent: seq<Message>) =>
      if sent == [HELLO] then Relabelled(w.server(sent), Bool(true)) else w.server(sent))
  }

  lemma TrueAnswers(w: World, sent: seq<Message>)
    requires Relabelled(w.server([HELLO]), Number(1.0)) == w.server([HELLO])
    ensures Welcome(TrueForOne(w)) == Welcome(w)
    ensures |sent| > 1 ==>
      TrueForOne(w).server(sent) == w.server(sent) && PageOf(TrueForOne(w), sent) == PageOf(w, sent)
  {
    TrueAnswersTheFirst(w.server([HELLO]), 1);
    assert TrueForOne(w).server([HELLO]) == Relabelled(w.server([HELLO]), Bool(true));
  }

  lemma {:induction false} TruePages(w: World, sent: seq<Message>)
    requires Relabelled(w.server([HELLO]), Number(1.0)) == w.server([HELLO])
    ensures PagesOf(TrueForOne(w), sent) == PagesOf(w, sent)
  {
    if |sent| > 2 {
      TruePages(w, sent[..|sent| - 1]);
      TrueAnswers(w, sent);
    }
  }

  lemma TrueNext(w: World, sent: seq<Message>)
    requires Relabelled(w.server([HELLO]), Number(1.0)) == w.server([HELLO])
    ensures Next(TrueForOne(w), sent) == Next(w, sent)
  {
    TrueAnswers(w, sent);
    TruePages(w, sent);
  }

  lemma {:induction false} TrueFollows(w: World, sent: seq<Message>)
    requires Relabelled(w.server([HELLO]), Number(1.0)) == w.server([HELLO])
    ensures Follows(TrueForOne(w), sent) <==> Follows(w, sent)
  {
    if sent != [] {
      TrueFollows(w, sent[..|sent| - 1]);
      TrueNext(w, sent[..|sent| - 1]);
    }
  }

  /** A server whose reply to initialize has the id `true` in place of 1 is captured like any
      other: the same messages are sent and the same manifest comes out. */
  lemma TrueIdIsCaptured(w: World, sent: seq<Message>)
    requires Relabelled(w.server([HELLO]), Number(1.0)) == w.server([HELLO])
    ensures IsRun(TrueForOne(w), sent) <==> IsRun(w, sent)
    ensures ManifestOf(TrueForOne(w), sent) == ManifestOf(w, sent)
  {
    TrueFollows(w, sent);
    TrueNext(w, sent);
    TruePages(w, sent);
    TrueAnswers(w, sent);
    TrueFailure(w, sent);
  }

  lemma TrueFailure(w: World, sent: seq<Message>)
    requires Relabelled(w.server([HELLO]), Number(1.0)) == w.server([HELLO])
    ensures FailureOf(TrueForOne(w), sent) == FailureOf(w, sent) && VersionOf(TrueForOne(w)) == VersionOf(w)
  {
    TrueAnswers(w, sent);
  }
}
