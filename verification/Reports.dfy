/**
 Write-once review reports: an existence check, then an upload with
 `If-None-Match: *` (section 13.1.2 of RFC 9110). The steps of concurrent
 calls interleave freely, replies get lost and callers crash.
 */
module Reports {
  import opened Paths
  import WebDav
  import Folders

  /** The resource that the report path addresses. */
  type Path = string
  type Content = string

  datatype Phase = Reviewing | Checking | Making | Putting | Confirming | Saved | Existed | Failed

  /** One call of `save_invoice_review`. */
  datatype Call = Call(path: Path, content: Content, phase: Phase)

  /** What becomes of a request: answered, never carried out, or carried out with the answer lost. */
  datatype Reply = Answered | Unreached | Lost

  datatype Event =
    | Begin(path: Path, content: Content)
    | Go(i: nat, reply: Reply)
    | Crash(i: nat)
    | Upload(path: Path, content: Content)

  /**
   `readable` says whether the client finds entries in the answers it gets: the
   base URL decides that once for all (Folders.BaseReads). `author` records
   which call created a report; it is not part of the server.
   */
  datatype State = State(readable: bool, reports: map<Path, Content>, calls: seq<Call>, author: map<Path, nat>)

  /** The server's side of a conditional upload: refused with 412 if anything is there. */
  function Put(reports: map<Path, Content>, path: Path, content: Content): map<Path, Content> {
    if path in reports then reports else reports[path := content]
  }

  function Advance(s: State, i: nat, reply: Reply): State
    requires i < |s.calls|
  {
    var c := s.calls[i];
    match c.phase
    case Reviewing => To(s, i, if reply == Answered && s.readable then Checking else Failed)
    case Checking =>
      To(s, i, if reply != Answered then Failed else if c.path in s.reports then Existed else Making)
    case Making => To(s, i, if reply == Answered && s.readable then Putting else Failed)
    case Putting =>
      if reply == Unreached || c.path in s.reports then To(s, i, Failed)
      else
        var s' := s.(reports := Put(s.reports, c.path, c.content), author := s.author[c.path := i]);
        To(s', i, if reply == Answered then Confirming else Failed)
    case Confirming => To(s, i, if reply == Answered && s.readable then Saved else Failed)
    case _ => s
  }

  function To(s: State, i: nat, phase: Phase): State
    requires i < |s.calls|
  {
    s.(calls := s.calls[i := s.calls[i].(phase := phase)])
  }

  predicate Finished(phase: Phase) {
    phase == Saved || phase == Existed || phase == Failed
  }

  function Step(s: State, e: Event): State {
    match e
    case Begin(path, content) => s.(calls := s.calls + [Call(path, content, Reviewing)])
    case Go(i, reply) => if i < |s.calls| then Advance(s, i, reply) else s
    case Crash(i) => if i < |s.calls| && !Finished(s.calls[i].phase) then To(s, i, Failed) else s
    case Upload(path, content) => s.(reports := Put(s.reports, path, content))
  }

  function Run(s: State, events: seq<Event>): State {
    if events == [] then s else Step(Run(s, events[..|events| - 1]), events[|events| - 1])
  }

  function Start(readable: bool, reports: map<Path, Content>): State {
    State(readable, reports, [], map[])
  }

  // ---- safety ----

  /** A call past its upload wrote the report; a call that found one did find one. */
  ghost predicate Honest(s: State) {
    && Authored(s)
    && forall i :: 0 <= i < |s.calls| ==> HonestCall(s, i)
  }

  ghost predicate Authored(s: State) {
    forall p :: p in s.author ==> p in s.reports && s.author[p] < |s.calls| && s.calls[s.author[p]].path == p
  }

  ghost predicate HonestCall(s: State, i: nat)
    requires i < |s.calls|
  {
    var c := s.calls[i];
    && (c.phase == Confirming || c.phase == Saved ==>
          c.path in s.author && s.author[c.path] == i && c.path in s.reports && s.reports[c.path] == c.content)
    && (c.phase == Existed ==> c.path in s.reports)
  }

  ghost predicate Keeps(before: map<Path, Content>, after: map<Path, Content>) {
    forall p :: p in before ==> p in after && after[p] == before[p]
  }

  lemma StepKeeps(s: State, e: Event)
    ensures Keeps(s.reports, Step(s, e).reports)
  {
  }

  lemma PathsStay(s: State, e: Event)
    ensures |s.calls| <= |Step(s, e).calls|
    ensures forall j :: 0 <= j < |s.calls| ==> Step(s, e).calls[j].path == s.calls[j].path
  {
  }

  /** Only an upload on a free path adds an author: the call itself. */
  lemma NewAuthor(s: State, e: Event, p: Path)
    requires p in Step(s, e).author
    ensures (p in s.author && Step(s, e).author[p] == s.author[p])
            || (e.Go? && e.i < |s.calls| && s.calls[e.i].path == p && Step(s, e).author[p] == e.i && p in Step(s, e).reports)
  {
  }

  lemma StepAuthored(s: State, e: Event)
    requires Authored(s)
    ensures Authored(Step(s, e))
  {
    var s' := Step(s, e);
    PathsStay(s, e);
    StepKeeps(s, e);
    forall p | p in s'.author ensures p in s'.reports && s'.author[p] < |s'.calls| && s'.calls[s'.author[p]].path == p {
      NewAuthor(s, e, p);
    }
  }

  lemma AuthorsStay(s: State, e: Event)
    requires Authored(s)
    ensures forall p :: p in s.author ==> p in Step(s, e).author && Step(s, e).author[p] == s.author[p]
  {
  }

  predicate Moves(e: Event, j: nat) {
    (e.Go? || e.Crash?) && e.i == j
  }

  /** A call's own step. */
  lemma OwnStepHonest(s: State, e: Event, j: nat)
    requires j < |s.calls| && HonestCall(s, j) && Moves(e, j)
    ensures HonestCall(Step(s, e), j)
  {
    if e.Go? && s.calls[j].phase == Putting {
      assert Step(s, e).calls[j].path == s.calls[j].path;
    }
  }

  /** The steps of others, and a call that begins. */
  lemma OtherStepHonest(s: State, e: Event, j: nat)
    requires Authored(s) && j < |Step(s, e).calls| && (j < |s.calls| ==> HonestCall(s, j)) && !Moves(e, j)
    ensures HonestCall(Step(s, e), j)
  {
    StepKeeps(s, e);
    AuthorsStay(s, e);
    assert j < |s.calls| ==> Step(s, e).calls[j] == s.calls[j];
  }

  lemma StepHonest(s: State, e: Event)
    requires Honest(s)
    ensures Honest(Step(s, e))
  {
    StepAuthored(s, e);
    forall j | 0 <= j < |Step(s, e).calls| ensures HonestCall(Step(s, e), j) {
      if j < |s.calls| && Moves(e, j) {
        OwnStepHonest(s, e, j);
      } else {
        OtherStepHonest(s, e, j);
      }
    }
  }

  lemma {:induction false} RunHonest(readable: bool, reports: map<Path, Content>, events: seq<Event>)
    ensures Honest(Run(Start(readable, reports), events))
  {
    if events != [] {
      RunHonest(readable, reports, events[..|events| - 1]);
      StepHonest(Run(Start(readable, reports), events[..|events| - 1]), events[|events| - 1]);
    }
  }

  /** The content of a report never changes after it was written, whatever happens next. */
  lemma {:induction false} ReportsAreImmutable(s: State, events: seq<Event>)
    ensures Keeps(s.reports, Run(s, events).reports)
  {
    if events != [] {
      ReportsAreImmutable(s, events[..|events| - 1]);
      StepKeeps(Run(s, events[..|events| - 1]), events[|events| - 1]);
    }
  }

  /**
   In every run at most one call per path reports that it saved; that call's
   content is what is stored; a call that reports otherwise found a report.
   */
  lemma SavedOnce(readable: bool, reports: map<Path, Content>, events: seq<Event>, i: nat, j: nat)
    requires var s := Run(Start(readable, reports), events); i < |s.calls| && j < |s.calls|
    ensures var s := Run(Start(readable, reports), events);
            && (s.calls[i].phase == Saved && s.calls[j].phase == Saved && s.calls[i].path == s.calls[j].path ==> i == j)
            && (s.calls[i].phase == Saved ==>
                  s.calls[i].path in s.reports && s.reports[s.calls[i].path] == s.calls[i].content
                  && s.calls[i].path !in reports)
            && (s.calls[i].phase == Existed ==> s.calls[i].path in s.reports)
  {
    RunHonest(readable, reports, events);
    AuthorsAreNew(readable, reports, events);
    assert HonestCall(Run(Start(readable, reports), events), i) && HonestCall(Run(Start(readable, reports), events), j);
  }

  /** Only reports that did not exist at the start have an author. */
  lemma {:induction false} AuthorsAreNew(readable: bool, reports: map<Path, Content>, events: seq<Event>)
    ensures forall p :: p in Run(Start(readable, reports), events).author ==> p !in reports
  {
    if events != [] {
      AuthorsAreNew(readable, reports, events[..|events| - 1]);
      ReportsAreImmutable(Start(readable, reports), events[..|events| - 1]);
    }
  }

  // ---- when nothing goes wrong, exactly one call wins ----

  predicate Calm(e: Event) {
    e.Begin? || (e.Go? && e.reply == Answered)
  }

  predicate CalmRun(events: seq<Event>) {
    forall k :: 0 <= k < |events| ==> Calm(events[k])
  }

  /** As long as the report is missing every call is before its upload; once it is there its author is on the way. */
  ghost predicate Orderly(s: State, path: Path) {
    && s.readable
    && if path in s.reports then
         path in s.author && s.author[path] < |s.calls|
         && s.calls[s.author[path]].path == path
         && (s.calls[s.author[path]].phase == Confirming || s.calls[s.author[path]].phase == Saved)
       else
         path !in s.author && forall i :: 0 <= i < |s.calls| && s.calls[i].path == path ==> Before(s.calls[i].phase)
  }

  predicate Before(phase: Phase) {
    phase == Reviewing || phase == Checking || phase == Making || phase == Putting
  }

  lemma StepOrderly(s: State, e: Event, path: Path)
    requires Orderly(s, path) && Calm(e)
    ensures Orderly(Step(s, e), path)
  {
  }

  lemma {:induction false} RunOrderly(reports: map<Path, Content>, events: seq<Event>, path: Path)
    requires CalmRun(events) && path !in reports
    ensures Orderly(Run(Start(true, reports), events), path)
  {
    if events != [] {
      RunOrderly(reports, events[..|events| - 1], path);
      StepOrderly(Run(Start(true, reports), events[..|events| - 1]), events[|events| - 1], path);
    }
  }

  /** A client that reads no answer never gets past the review, in any run. */
  lemma {:induction false} UnreadableSavesNothing(reports: map<Path, Content>, events: seq<Event>)
    ensures var s := Run(Start(false, reports), events);
            && !s.readable && s.author == map[]
            && forall i :: 0 <= i < |s.calls| ==> s.calls[i].phase == Reviewing || s.calls[i].phase == Failed
  {
    if events != [] {
      UnreadableSavesNothing(reports, events[..|events| - 1]);
    }
  }

  lemma StepAuthorsAll(s: State, e: Event)
    requires Calm(e)
    ensures Step(s, e).reports.Keys - Step(s, e).author.Keys <= s.reports.Keys - s.author.Keys
  {
  }

  /** Without uploads by others, a report is there only if it was at the start or has an author. */
  lemma {:induction false} ReportsHaveAuthors(readable: bool, reports: map<Path, Content>, events: seq<Event>)
    requires CalmRun(events)
    ensures var s := Run(Start(readable, reports), events); s.reports.Keys - s.author.Keys <= reports.Keys
  {
    if events != [] {
      ReportsHaveAuthors(readable, reports, events[..|events| - 1]);
      StepAuthorsAll(Run(Start(readable, reports), events[..|events| - 1]), events[|events| - 1]);
    }
  }

  /**
   No request fails, nobody crashes, and every call for a new path has finished:
   if the user name and the workspace root need no escapes, exactly one of the
   calls has saved the report; otherwise none has and nothing is stored.
   */
  lemma ExactlyOneSaves(user: string, root: seq<string>, reports: map<Path, Content>, events: seq<Event>, path: Path)
    returns (winner: nat)
    requires CalmRun(events) && path !in reports
    requires var calls := Run(Start(WebDav.PlainBase(user, root), reports), events).calls;
             && (exists i :: 0 <= i < |calls| && calls[i].path == path)
             && (forall i :: 0 <= i < |calls| && calls[i].path == path ==> Finished(calls[i].phase))
    ensures var s := Run(Start(WebDav.PlainBase(user, root), reports), events);
            && winner < |s.calls| && s.calls[winner].path == path
            && (path in s.reports <==> WebDav.PlainBase(user, root))
            && forall i :: 0 <= i < |s.calls| && s.calls[i].path == path ==>
                 (s.calls[i].phase == Saved <==> WebDav.PlainBase(user, root) && i == winner)
  {
    var readable := WebDav.PlainBase(user, root);
    var s := Run(Start(readable, reports), events);
    if readable {
      RunOrderly(reports, events, path);
      RunHonest(readable, reports, events);
      winner := s.author[path];
      forall i | 0 <= i < |s.calls| && s.calls[i].path == path ensures s.calls[i].phase == Saved <==> i == winner {
        assert HonestCall(s, i);
      }
    } else {
      UnreadableSavesNothing(reports, events);
      ReportsHaveAuthors(readable, reports, events);
      var i :| 0 <= i < |s.calls| && s.calls[i].path == path;
      winner := i;
    }
  }

  /** What decides is whether the client reads the answer about the report. */
  lemma ReadableMeansRead(prefix: string, user: string, root: seq<string>, report: seq<string>)
    requires WebDav.PlainPrefix(prefix) && AllClean(root) && root != [] && AllClean(report)
    ensures Folders.Reads(WebDav.BasePath(prefix, user, "/" + Join(root)))(report) <==> WebDav.PlainBase(user, root)
  {
    Folders.BaseReads(prefix, user, root);
  }

  // ---- who stored a report ----

  /** The state before event `k`. */
  function At(s: State, events: seq<Event>, k: nat): State
    requires k <= |events|
  {
    Run(s, events[..k])
  }

  predicate InPhase(s: State, i: nat, phase: Phase) {
    i < |s.calls| && s.calls[i].phase == phase
  }

  /** Event `k` is the upload of call `i`, carried out on a free path with this reply. */
  predicate WritesAt(s: State, events: seq<Event>, k: nat, i: nat, reply: Reply) {
    && k < |events| && events[k] == Go(i, reply) && reply != Unreached
    && var before := At(s, events, k);
       InPhase(before, i, Putting) && before.calls[i].path !in before.reports
  }

  predicate Failing(e: Event, i: nat) {
    e == Crash(i) || (e.Go? && e.i == i && e.reply != Answered)
  }

  /** Event `m` makes call `i` fail while it reads its report back. */
  predicate FailsAfterUpload(s: State, events: seq<Event>, m: nat, i: nat) {
    m < |events| && InPhase(At(s, events, m), i, Confirming) && Failing(events[m], i)
  }

  predicate Wrote(s: State, i: nat) {
    i < |s.calls| && s.calls[i].path in s.author && s.author[s.calls[i].path] == i
  }

  lemma AtPrefix(s: State, events: seq<Event>, last: Event, k: nat)
    requires k <= |events|
    ensures At(s, events + [last], k) == At(s, events, k)
  {
    assert (events + [last])[..k] == events[..k];
  }

  lemma RunNext(s: State, events: seq<Event>, last: Event)
    ensures Run(s, events + [last]) == Step(Run(s, events), last)
    ensures At(s, events + [last], |events|) == Run(s, events)
  {
    assert (events + [last])[..|events|] == events;
  }

  /** What the next event does to the authorship of call `i`. */
  lemma StepWrote(s: State, e: Event, i: nat)
    requires Honest(s)
    ensures Wrote(Step(s, e), i)
            <==> Wrote(s, i) || (e.Go? && e.i == i && e.reply != Unreached && InPhase(s, i, Putting)
                                 && s.calls[i].path !in s.reports)
  {
  }

  ghost predicate HasWritten(s: State, events: seq<Event>, i: nat) {
    exists k: nat, reply :: WritesAt(s, events, k, i, reply)
  }

  lemma HasWrittenNext(s: State, events: seq<Event>, last: Event, i: nat)
    ensures HasWritten(s, events + [last], i)
            <==> HasWritten(s, events, i)
                 || (last.Go? && last.i == i && last.reply != Unreached && InPhase(Run(s, events), i, Putting)
                     && Run(s, events).calls[i].path !in Run(s, events).reports)
  {
    RunNext(s, events, last);
    forall k: nat, reply | k < |events|
      ensures WritesAt(s, events + [last], k, i, reply) <==> WritesAt(s, events, k, i, reply)
    {
      AtPrefix(s, events, last, k);
    }
    if HasWritten(s, events, i) {
      var k: nat, reply :| WritesAt(s, events, k, i, reply);
      assert WritesAt(s, events + [last], k, i, reply);
    }
    if last.Go? {
      assert WritesAt(s, events + [last], |events|, i, last.reply)
             <==> (last.i == i && last.reply != Unreached && InPhase(Run(s, events), i, Putting)
                   && Run(s, events).calls[i].path !in Run(s, events).reports);
    }
  }

  /** A call has stored its report if and only if its upload was carried out on a free path. */
  lemma {:induction false} AuthorIsUpload(readable: bool, reports: map<Path, Content>, events: seq<Event>, i: nat)
    ensures Wrote(Run(Start(readable, reports), events), i) <==> HasWritten(Start(readable, reports), events, i)
  {
    var s := Start(readable, reports);
    if events == [] {
      assert forall k: nat, reply :: !WritesAt(s, events, k, i, reply);
    } else {
      var init, last := events[..|events| - 1], events[|events| - 1];
      assert events == init + [last];
      AuthorIsUpload(readable, reports, init, i);
      RunHonest(readable, reports, init);
      RunNext(s, init, last);
      StepWrote(Run(s, init), last, i);
      HasWrittenNext(s, init, last, i);
    }
  }

  ghost predicate HasFailed(s: State, events: seq<Event>, from: nat, i: nat) {
    exists m: nat :: m >= from && FailsAfterUpload(s, events, m, i)
  }

  lemma HasFailedNext(s: State, events: seq<Event>, last: Event, from: nat, i: nat)
    requires from <= |events|
    requires HasFailed(s, events, from, i) || (InPhase(Run(s, events), i, Confirming) && Failing(last, i))
    ensures HasFailed(s, events + [last], from, i)
  {
    RunNext(s, events, last);
    if m: nat :| m >= from && FailsAfterUpload(s, events, m, i) {
      AtPrefix(s, events, last, m);
      assert FailsAfterUpload(s, events + [last], m, i);
    } else {
      assert FailsAfterUpload(s, events + [last], |events|, i);
    }
  }

  predicate Uploaded(s: State, i: nat) {
    InPhase(s, i, Confirming) || InPhase(s, i, Saved) || InPhase(s, i, Failed)
  }

  lemma StepUploaded(s: State, e: Event, i: nat)
    requires Uploaded(s, i) && s.readable
    ensures Uploaded(Step(s, e), i)
    ensures InPhase(Step(s, e), i, Failed) ==> InPhase(s, i, Failed) || (InPhase(s, i, Confirming) && Failing(e, i))
  {
  }

  /** After its upload a call can only fail while it reads the report back. */
  lemma {:induction false} FailsLater(reports: map<Path, Content>, events: seq<Event>, from: nat, i: nat)
    requires from <= |events| && InPhase(At(Start(true, reports), events, from), i, Confirming)
    ensures Uploaded(Run(Start(true, reports), events), i)
    ensures InPhase(Run(Start(true, reports), events), i, Failed) ==> HasFailed(Start(true, reports), events, from, i)
    decreases |events|
  {
    var s := Start(true, reports);
    if from == |events| {
      assert events[..from] == events;
    } else {
      var init, last := events[..|events| - 1], events[|events| - 1];
      assert events == init + [last];
      RunNext(s, init, last);
      AtPrefix(s, init, last, from);
      FailsLater(reports, init, from, i);
      StaysReadable(reports, init);
      StepUploaded(Run(s, init), last, i);
      if InPhase(Run(s, events), i, Failed) {
        HasFailedNext(s, init, last, from, i);
      }
    }
  }

  lemma NextAt(s: State, events: seq<Event>, k: nat)
    requires k < |events|
    ensures At(s, events, k + 1) == Step(At(s, events, k), events[k])
  {
    assert events[..k + 1][..k] == events[..k];
  }

  lemma UploadsAreReadable(readable: bool, reports: map<Path, Content>, events: seq<Event>, i: nat)
    requires InPhase(Run(Start(readable, reports), events), i, Putting)
    ensures readable
  {
    if !readable {
      UnreadableSavesNothing(reports, events);
    }
  }

  lemma {:induction false} StaysReadable(reports: map<Path, Content>, events: seq<Event>)
    ensures Run(Start(true, reports), events).readable
  {
    if events != [] {
      StaysReadable(reports, events[..|events| - 1]);
    }
  }

  /**
   A call that failed has stored its report all the same if and only if its
   upload was carried out on a free path and either the answer was lost or the
   call then failed or crashed while it read the report back.
   */
  lemma FailedButStored(readable: bool, reports: map<Path, Content>, events: seq<Event>, i: nat)
    requires InPhase(Run(Start(readable, reports), events), i, Failed)
    ensures var s := Start(readable, reports);
            Wrote(Run(s, events), i)
            <==> || (exists k: nat :: WritesAt(s, events, k, i, Lost))
                 || (exists k: nat, m: nat :: k < m && WritesAt(s, events, k, i, Answered) && FailsAfterUpload(s, events, m, i))
  {
    var s := Start(readable, reports);
    AuthorIsUpload(readable, reports, events, i);
    if k: nat, reply :| WritesAt(s, events, k, i, reply) && reply == Answered {
      UploadsAreReadable(readable, reports, events[..k], i);
      NextAt(s, events, k);
      StaysReadable(reports, events[..k]);
      FailsLater(reports, events, k + 1, i);
      var m: nat :| m >= k + 1 && FailsAfterUpload(s, events, m, i);
      assert k < m && WritesAt(s, events, k, i, Answered);
    }
  }

  // ---- which answer a call gives ----

  /** Event `k` answers the existence check of call `i`; `found` says whether its report is stored by then. */
  predicate ChecksAt(s: State, events: seq<Event>, k: nat, i: nat, found: bool) {
    && k < |events| && events[k] == Go(i, Answered)
    && var before := At(s, events, k);
       InPhase(before, i, Checking) && (before.calls[i].path in before.reports) == found
  }

  ghost predicate HasChecked(s: State, events: seq<Event>, i: nat, found: bool) {
    exists k: nat :: ChecksAt(s, events, k, i, found)
  }

  /** The next event answers the check of call `i`. */
  predicate ChecksNow(s: State, e: Event, i: nat, found: bool) {
    e == Go(i, Answered) && InPhase(s, i, Checking) && (s.calls[i].path in s.reports) == found
  }

  lemma HasCheckedNext(s: State, events: seq<Event>, last: Event, i: nat, found: bool)
    ensures HasChecked(s, events + [last], i, found)
            <==> HasChecked(s, events, i, found) || ChecksNow(Run(s, events), last, i, found)
  {
    RunNext(s, events, last);
    forall k: nat | k < |events|
      ensures ChecksAt(s, events + [last], k, i, found) <==> ChecksAt(s, events, k, i, found)
    {
      AtPrefix(s, events, last, k);
    }
    if HasChecked(s, events, i, found) {
      var k: nat :| ChecksAt(s, events, k, i, found);
      assert ChecksAt(s, events + [last], k, i, found);
    }
    assert ChecksAt(s, events + [last], |events|, i, found) <==> ChecksNow(Run(s, events), last, i, found);
  }

  lemma StepExisted(s: State, e: Event, i: nat)
    ensures InPhase(Step(s, e), i, Existed) <==> InPhase(s, i, Existed) || ChecksNow(s, e, i, true)
  {
  }

  /** Over every run a call answers that its report existed if and only if its check was answered while it was stored. */
  lemma {:induction false} ExistedIffFound(readable: bool, reports: map<Path, Content>, events: seq<Event>, i: nat)
    ensures InPhase(Run(Start(readable, reports), events), i, Existed)
            <==> HasChecked(Start(readable, reports), events, i, true)
  {
    var s := Start(readable, reports);
    if events == [] {
      assert forall k: nat :: !ChecksAt(s, events, k, i, true);
    } else {
      var init, last := events[..|events| - 1], events[|events| - 1];
      assert events == init + [last];
      ExistedIffFound(readable, reports, init, i);
      RunNext(s, init, last);
      StepExisted(Run(s, init), last, i);
      HasCheckedNext(s, init, last, i, true);
    }
  }

  /** Where a call can be that began once its report was stored, when nothing fails. */
  ghost predicate Late(s: State, i: nat) {
    s.readable && i < |s.calls| && s.calls[i].path in s.reports
    && (s.calls[i].phase == Reviewing || s.calls[i].phase == Checking || s.calls[i].phase == Existed)
  }

  lemma StepLate(s: State, e: Event, i: nat)
    requires Late(s, i) && Calm(e)
    ensures Late(Step(s, e), i)
  {
  }

  lemma {:induction false} RunLate(s: State, events: seq<Event>, i: nat)
    requires Late(s, i) && CalmRun(events)
    ensures Late(Run(s, events), i)
  {
    if events != [] {
      RunLate(s, events[..|events| - 1], i);
      StepLate(Run(s, events[..|events| - 1]), events[|events| - 1], i);
    }
  }

  lemma RunTwice(s: State, a: seq<Event>, b: seq<Event>)
    ensures Run(s, a + b) == Run(Run(s, a), b)
    decreases |b|
  {
    if b == [] {
      assert a + b == a;
    } else {
      RunTwice(s, a, b[..|b| - 1]);
      assert (a + b)[..|a + b| - 1] == a + b[..|b| - 1];
    }
  }

  /**
   After any run on a client that reads its answers: a call that begins once its
   report is stored can only answer that it existed, as long as nothing fails.
   */
  lemma SecondSaveFinds(reports: map<Path, Content>, before: seq<Event>, path: Path, content: Content, after: seq<Event>)
    requires path in Run(Start(true, reports), before).reports && CalmRun(after)
    ensures var s, i := Run(Start(true, reports), before + [Begin(path, content)] + after),
                        |Run(Start(true, reports), before).calls|;
            && i < |s.calls| && s.calls[i].path == path
            && (Finished(s.calls[i].phase) ==> s.calls[i].phase == Existed)
  {
    var s, e := Run(Start(true, reports), before), Begin(path, content);
    StaysReadable(reports, before);
    RunNext(Start(true, reports), before, e);
    RunTwice(Start(true, reports), before + [e], after);
    RunLate(Step(s, e), after, |s.calls|);
    PathStays(Step(s, e), after, |s.calls|);
  }

  lemma {:induction false} PathStays(s: State, events: seq<Event>, i: nat)
    requires i < |s.calls|
    ensures i < |Run(s, events).calls| && Run(s, events).calls[i].path == s.calls[i].path
  {
    if events != [] {
      PathStays(s, events[..|events| - 1], i);
      PathsStay(Run(s, events[..|events| - 1]), events[|events| - 1]);
    }
  }

  /** Event `m` is the upload of call `i`, refused because its report is there by now. */
  predicate RefusedAt(s: State, events: seq<Event>, m: nat, i: nat) {
    && m < |events| && events[m] == Go(i, Answered)
    && var before := At(s, events, m);
       InPhase(before, i, Putting) && before.calls[i].path in before.reports
  }

  predicate RefusedNow(s: State, e: Event, i: nat) {
    e == Go(i, Answered) && InPhase(s, i, Putting) && s.calls[i].path in s.reports
  }

  ghost predicate Overtaken(s: State, events: seq<Event>, i: nat) {
    exists k: nat, m: nat :: k < m && ChecksAt(s, events, k, i, false) && RefusedAt(s, events, m, i)
  }

  lemma OvertakenNext(s: State, events: seq<Event>, last: Event, i: nat)
    ensures Overtaken(s, events + [last], i)
            <==> Overtaken(s, events, i) || (HasChecked(s, events, i, false) && RefusedNow(Run(s, events), last, i))
  {
    RunNext(s, events, last);
    forall k: nat | k < |events|
      ensures ChecksAt(s, events + [last], k, i, false) <==> ChecksAt(s, events, k, i, false)
      ensures RefusedAt(s, events + [last], k, i) <==> RefusedAt(s, events, k, i)
    {
      AtPrefix(s, events, last, k);
    }
    assert RefusedAt(s, events + [last], |events|, i) <==> RefusedNow(Run(s, events), last, i);
    if k: nat, m: nat :| k < m && ChecksAt(s, events, k, i, false) && RefusedAt(s, events, m, i) {
      assert ChecksAt(s, events + [last], k, i, false) && RefusedAt(s, events + [last], m, i);
    }
    if HasChecked(s, events, i, false) && RefusedNow(Run(s, events), last, i) {
      var k: nat :| ChecksAt(s, events, k, i, false);
      assert ChecksAt(s, events + [last], k, i, false) && RefusedAt(s, events + [last], |events|, i);
    }
  }

  /** Past its check a call has found no report. */
  ghost predicate PastCheck(s: State, i: nat, checked: bool) {
    InPhase(s, i, Making) || InPhase(s, i, Putting) || InPhase(s, i, Confirming) || InPhase(s, i, Saved) ==> checked
  }

  lemma StepPast(s: State, e: Event, i: nat, checked: bool)
    requires PastCheck(s, i, checked)
    ensures PastCheck(Step(s, e), i, checked || ChecksNow(s, e, i, false))
  {
  }

  lemma {:induction false} PastCheckTrace(reports: map<Path, Content>, events: seq<Event>, i: nat)
    ensures var s := Start(true, reports); PastCheck(Run(s, events), i, HasChecked(s, events, i, false))
  {
    hide Step, ChecksNow;
    var s := Start(true, reports);
    if events != [] {
      var init, last := events[..|events| - 1], events[|events| - 1];
      assert events == init + [last];
      PastCheckTrace(reports, init, i);
      RunNext(s, init, last);
      StepPast(Run(s, init), last, i, HasChecked(s, init, i, false));
      HasCheckedNext(s, init, last, i, false);
    }
  }

  lemma StepFails(s: State, e: Event, i: nat)
    requires s.readable && Calm(e)
    ensures InPhase(Step(s, e), i, Failed) <==> InPhase(s, i, Failed) || RefusedNow(s, e, i)
  {
  }

  /**
   When nothing fails and the client reads its answers, a call fails if and only
   if its report appeared between its check and its upload.
   */
  lemma {:induction false} FailsIffOvertaken(reports: map<Path, Content>, events: seq<Event>, i: nat)
    requires CalmRun(events)
    ensures InPhase(Run(Start(true, reports), events), i, Failed) <==> Overtaken(Start(true, reports), events, i)
  {
    var s := Start(true, reports);
    if events == [] {
      assert forall k: nat :: !RefusedAt(s, events, k, i);
    } else {
      var init, last := events[..|events| - 1], events[|events| - 1];
      assert events == init + [last];
      FailsIffOvertaken(reports, init, i);
      StaysReadable(reports, init);
      RunNext(s, init, last);
      PastCheckTrace(reports, init, i);
      StepFails(Run(s, init), last, i);
      OvertakenNext(s, init, last, i);
    }
  }

  /** An answer that has to be read, on a client that reads none. */
  predicate Unread(s: State, i: nat) {
    !s.readable && (InPhase(s, i, Reviewing) || InPhase(s, i, Making) || InPhase(s, i, Confirming))
  }

  /**
   Event `e` ends call `i` without success: it crashes, a request of it is not
   answered, its answer cannot be read, or its upload finds a report.
   */
  predicate FailsNow(s: State, e: Event, i: nat) {
    && i < |s.calls| && !Finished(s.calls[i].phase)
    && (e == Crash(i)
        || (e.Go? && e.i == i
            && (e.reply != Answered || Unread(s, i) || (InPhase(s, i, Putting) && s.calls[i].path in s.reports))))
  }

  predicate FailsAt(s: State, events: seq<Event>, m: nat, i: nat) {
    m < |events| && FailsNow(At(s, events, m), events[m], i)
  }

  ghost predicate HasAnyFailed(s: State, events: seq<Event>, i: nat) {
    exists m: nat :: FailsAt(s, events, m, i)
  }

  lemma HasAnyFailedNext(s: State, events: seq<Event>, last: Event, i: nat)
    ensures HasAnyFailed(s, events + [last], i) <==> HasAnyFailed(s, events, i) || FailsNow(Run(s, events), last, i)
  {
    RunNext(s, events, last);
    forall m: nat | m < |events| ensures FailsAt(s, events + [last], m, i) <==> FailsAt(s, events, m, i) {
      AtPrefix(s, events, last, m);
    }
    if HasAnyFailed(s, events, i) {
      var m: nat :| FailsAt(s, events, m, i);
      assert FailsAt(s, events + [last], m, i);
    }
    assert FailsAt(s, events + [last], |events|, i) <==> FailsNow(Run(s, events), last, i);
  }

  lemma StepFailsNow(s: State, e: Event, i: nat)
    ensures InPhase(Step(s, e), i, Failed) <==> InPhase(s, i, Failed) || FailsNow(s, e, i)
  {
  }

  /** Over every run, on any client, a call has failed if and only if one of its events made it fail. */
  lemma {:induction false} FailsIffSomethingFailed(readable: bool, reports: map<Path, Content>, events: seq<Event>, i: nat)
    ensures InPhase(Run(Start(readable, reports), events), i, Failed)
            <==> HasAnyFailed(Start(readable, reports), events, i)
  {
    var s := Start(readable, reports);
    if events == [] {
      assert forall m: nat :: !FailsAt(s, events, m, i);
    } else {
      var init, last := events[..|events| - 1], events[|events| - 1];
      assert events == init + [last];
      FailsIffSomethingFailed(readable, reports, init, i);
      RunNext(s, init, last);
      StepFailsNow(Run(s, init), last, i);
      HasAnyFailedNext(s, init, last, i);
    }
  }

  /** The number of steps that call `i` gets to take. */
  function OwnSteps(events: seq<Event>, i: nat): nat {
    if events == [] then 0 else
    var n := |events| - 1;
    OwnSteps(events[..n], i) + if events[n].Go? && events[n].i == i then 1 else 0
  }

  /** How many are left. */
  function Left(phase: Phase): nat {
    match phase
    case Reviewing => 5
    case Checking => 4
    case Making => 3
    case Putting => 2
    case Confirming => 1
    case _ => 0
  }

  lemma StepLeft(s: State, e: Event, i: nat, taken: nat)
    requires i < |s.calls|
    requires !Finished(s.calls[i].phase) ==> Left(s.calls[i].phase) + taken == 5
    requires s.calls[i].phase == Saved ==> taken >= 5
    ensures var taken', phase := taken + if e.Go? && e.i == i then 1 else 0, Step(s, e).calls[i].phase;
            && (!Finished(phase) ==> Left(phase) + taken' == 5)
            && (phase == Saved ==> taken' >= 5)
  {
  }

  lemma {:induction false} StepsLeft(s: State, events: seq<Event>, i: nat)
    requires i < |s.calls| && s.calls[i].phase == Reviewing
    ensures i < |Run(s, events).calls|
    ensures var phase := Run(s, events).calls[i].phase;
            && (!Finished(phase) ==> Left(phase) + OwnSteps(events, i) == 5)
            && (phase == Saved ==> OwnSteps(events, i) >= 5)
  {
    if events != [] {
      var init, last := events[..|events| - 1], events[|events| - 1];
      StepsLeft(s, init, i);
      StepLeft(Run(s, init), last, i, OwnSteps(init, i));
    }
  }

  /**
   A call is finished after five steps at the latest, whatever the others do, and
   no call has saved its report with fewer: the review, the existence check, the
   folder, the upload and reading it back.
   */
  lemma CallFinishes(s: State, events: seq<Event>, i: nat)
    requires i < |s.calls| && s.calls[i].phase == Reviewing
    ensures i < |Run(s, events).calls|
    ensures OwnSteps(events, i) >= 5 ==> Finished(Run(s, events).calls[i].phase)
    ensures Run(s, events).calls[i].phase == Saved ==> OwnSteps(events, i) >= 5
  {
    StepsLeft(s, events, i);
  }
}
