/** `waitForBuild` (pkg/start/gen2.go:430-455): once a second the build is
    fetched and its status decides whether to keep polling, to succeed or to
    fail; cancelling the context ends the wait without an error.

    The ticker, the context and the provider's `BuildGet` are the
    environment: the model reads what they deliver as a sequence of events,
    one per turn of the `select`. */
module BuildWait {
  import opened Wrappers

  datatype Event =
    | Cancelled                      // `<-ctx.Done()`
    | Fetched(status: string)        // a tick, and `BuildGet` returned a build
    | FetchFailed(message: string)   // a tick, and `BuildGet` returned an error

  /** What one turn of the loop decides: poll again, or return with the
      given error (`None` for nil). */
  datatype Step = Continue | Stop(err: Option<string>)

  predicate Pending(status: string)
  {
    status == "created" || status == "running"
  }

  /** The status switch. */
  function StatusStep(status: string): (s: Step)
    ensures s.Continue? <==> Pending(status)
    ensures s == Stop(None) <==> status == "complete"
    ensures s.Stop? && s.err.Some? ==> s.err.value == "build failed" || s.err.value == "unknown build status: " + status
  {
    match status
    case "created" => Continue
    case "running" => Continue
    case "complete" => Stop(None)
    case "failed" => Stop(Some("build failed"))
    case _ => Stop(Some("unknown build status: " + status))
  }

  function EventStep(e: Event): Step
  {
    match e
    case Cancelled => Stop(None)
    case FetchFailed(m) => Stop(Some(m))
    case Fetched(status) => StatusStep(status)
  }

  /** Where the wait is after a finite run of events: still polling, or
      returned at event `at` with `err`. */
  datatype Wait = Polling | Returned(at: nat, err: Option<string>)

  /** The wait over `events[i..]`. */
  function AwaitFrom(events: seq<Event>, i: nat): (w: Wait)
    requires i <= |events|
    ensures w.Returned? ==> i <= w.at < |events|
    decreases |events| - i
  {
    if i == |events| then Polling
    else match EventStep(events[i])
      case Stop(err) => Returned(i, err)
      case Continue => AwaitFrom(events, i + 1)
  }

  function Await(events: seq<Event>): Wait
  {
    AwaitFrom(events, 0)
  }

  /** The wait returns at the first event that does not continue it, with
      that event's error, and keeps polling exactly when every event
      continues it. */
  lemma {:induction false} AwaitFromFirstStop(events: seq<Event>, i: nat)
    requires i <= |events|
    ensures AwaitFrom(events, i).Polling? <==> forall j :: i <= j < |events| ==> EventStep(events[j]).Continue?
    ensures AwaitFrom(events, i).Returned? ==>
              var w := AwaitFrom(events, i);
              && (forall j :: i <= j < w.at ==> EventStep(events[j]).Continue?)
              && EventStep(events[w.at]) == Stop(w.err)
    decreases |events| - i
  {
    if i < |events| && EventStep(events[i]).Continue? {
      AwaitFromFirstStop(events, i + 1);
    }
  }

  /** Events after the wait has returned change nothing. */
  lemma {:induction false} AwaitIgnoresLater(events: seq<Event>, more: seq<Event>, i: nat)
    requires i <= |events|
    requires AwaitFrom(events, i).Returned?
    ensures AwaitFrom(events + more, i) == AwaitFrom(events, i)
    decreases |events| - i
  {
    assert (events + more)[i] == events[i];
    if EventStep(events[i]).Continue? {
      AwaitIgnoresLater(events, more, i + 1);
    }
  }

  /** The poll loop, run over the events the environment delivers; when they
      run out with the build still pending it reports `finished == false`. */
  method WaitForBuild(events: seq<Event>) returns (finished: bool, at: nat, err: Option<string>)
    ensures finished <==> exists j :: 0 <= j < |events| && EventStep(events[j]).Stop?
    ensures finished ==> at < |events| && EventStep(events[at]) == Stop(err)
    ensures finished ==> forall j :: 0 <= j < at ==> EventStep(events[j]).Continue?
    ensures finished ==> Await(events) == Returned(at, err)
    ensures !finished ==> Await(events) == Polling
  {
    var i := 0;
    while i < |events|
      invariant i <= |events|
      invariant forall j :: 0 <= j < i ==> EventStep(events[j]).Continue?
      invariant AwaitFrom(events, i) == Await(events)
      decreases |events| - i
    {
      var step;
      match events[i] {
        case Cancelled =>
          step := Stop(None);
        case FetchFailed(m) =>
          step := Stop(Some(m));
        case Fetched(status) =>
          if status == "created" || status == "running" {
            step := Continue;
          } else if status == "complete" {
            step := Stop(None);
          } else if status == "failed" {
            step := Stop(Some("build failed"));
          } else {
            step := Stop(Some("unknown build status: " + status));
          }
      }
      assert step == EventStep(events[i]);
      if step.Stop? {
        return true, i, step.err;
      }
      i := i + 1;
    }
    return false, 0, None;
  }

  /** `created`, `running`, `complete` ends the wait without an error at the
      third poll. */
  lemma CompletesOnThirdPoll(events: seq<Event>)
    requires events == [Fetched("created"), Fetched("running"), Fetched("complete")]
    ensures Await(events) == Returned(2, None)
  {
    assert EventStep(events[0]) == Continue;
    assert EventStep(events[1]) == Continue;
    assert EventStep(events[2]) == Stop(None);
    assert AwaitFrom(events, 2) == Returned(2, None);
    assert AwaitFrom(events, 1) == AwaitFrom(events, 2);
    assert AwaitFrom(events, 0) == AwaitFrom(events, 1);
  }

  /** Any run of pending statuses followed by `failed` fails with
      "build failed" at the `failed` poll. */
  lemma FailsAfterPending(pending: seq<string>, more: seq<Event>)
    requires forall k :: 0 <= k < |pending| ==> Pending(pending[k])
    ensures var events := seq(|pending|, k requires 0 <= k < |pending| => Fetched(pending[k])) + [Fetched("failed")] + more;
            Await(events) == Returned(|pending|, Some("build failed"))
  {
    var polls := seq(|pending|, k requires 0 <= k < |pending| => Fetched(pending[k]));
    var events := polls + [Fetched("failed")];
    assert forall j :: 0 <= j < |pending| ==> EventStep(events[j]).Continue?;
    assert EventStep(events[|pending|]) == Stop(Some("build failed"));
    AwaitFromFirstStop(events, 0);
    AwaitIgnoresLater(events, more, 0);
  }

  /** A status outside the known four ends the wait with an error naming it,
      however many polls were pending before. */
  lemma UnknownStatusFails(pending: seq<string>, status: string)
    requires forall k :: 0 <= k < |pending| ==> Pending(pending[k])
    requires !Pending(status) && status != "complete" && status != "failed"
    ensures var events := seq(|pending|, k requires 0 <= k < |pending| => Fetched(pending[k])) + [Fetched(status)];
            Await(events) == Returned(|pending|, Some("unknown build status: " + status))
  {
    var events := seq(|pending|, k requires 0 <= k < |pending| => Fetched(pending[k])) + [Fetched(status)];
    assert forall j :: 0 <= j < |pending| ==> EventStep(events[j]).Continue?;
    assert EventStep(events[|pending|]) == Stop(Some("unknown build status: " + status));
    AwaitFromFirstStop(events, 0);
  }

  /** Cancelling the context ends the wait without an error, whatever comes
      after. */
  lemma CancelEndsQuietly(pending: seq<string>, more: seq<Event>)
    requires forall k :: 0 <= k < |pending| ==> Pending(pending[k])
    ensures var events := seq(|pending|, k requires 0 <= k < |pending| => Fetched(pending[k])) + [Cancelled] + more;
            Await(events) == Returned(|pending|, None)
  {
    var events := seq(|pending|, k requires 0 <= k < |pending| => Fetched(pending[k])) + [Cancelled];
    assert forall j :: 0 <= j < |pending| ==> EventStep(events[j]).Continue?;
    assert EventStep(events[|pending|]) == Stop(None);
    AwaitFromFirstStop(events, 0);
    AwaitIgnoresLater(events, more, 0);
  }
}
