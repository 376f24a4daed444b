/** Coarse-position requests told from their history: whether one is wanted, whether the timer runs, and
    which events call the framework. */
module OdcpiReference {
  import opened Odcpi

  /** A start is heard once there is a callback. */
  predicate Starts(es: seq<Event>, e: Event) { e.StartRequest? && Init in es }

  /** The last start that was heard has not been followed by a stop or a modem restart. */
  predicate Wanted(es: seq<Event>) {
    es != []
    && (var before, e := es[..|es| - 1], es[|es| - 1];
        Starts(before, e) || (e != StopRequest && e != EngineUp && Wanted(before)))
  }

  /** A start that was heard has the timer run until it expires with no request wanted. */
  predicate TimerRuns(es: seq<Event>) {
    es != []
    && (var before, e := es[..|es| - 1], es[|es| - 1];
        Starts(before, e) || if e == TimerExpired then Wanted(before) else TimerRuns(before))
  }

  /** The last start that was heard is an emergency. */
  predicate Emergency(es: seq<Event>) {
    es != []
    && (var before, e := es[..|es| - 1], es[|es| - 1];
        if Starts(before, e) then e.emergency else Emergency(before))
  }

  /** The framework is called: by a start that finds no timer, or that is an emergency after one that was
      none, and by an expiry that finds a request wanted. */
  predicate Calls(es: seq<Event>, e: Event) {
    if e == TimerExpired then Wanted(es)
    else Starts(es, e) && (!TimerRuns(es) || (e.emergency && !Emergency(es)))
  }

  lemma {:induction false} WantedRuns(es: seq<Event>)
    ensures Wanted(es) ==> TimerRuns(es) && Init in es
  {
    if es != [] {
      WantedRuns(es[..|es| - 1]);
      assert es == es[..|es| - 1] + [es[|es| - 1]];
    }
  }

  /** Over every run the state is that of the history. */
  lemma {:induction false} RunIs(es: seq<Event>)
    ensures Run(INITIAL, es) == State(Init in es, Wanted(es), TimerRuns(es), Emergency(es))
  {
    if es != [] {
      var before, e := es[..|es| - 1], es[|es| - 1];
      RunIs(before);
      WantedRuns(before);
      assert Init in es <==> Init in before || e == Init by {
        assert es == before + [e];
      }
    }
  }

  /** After every run an event calls the framework exactly then, once, with the request that is now the
      last one heard. */
  lemma RunCalls(es: seq<Event>, e: Event)
    ensures var r := Next(Run(INITIAL, es), e);
      r.callbacks == (if Calls(es, e) then 1 else 0) && r.state.emergency == Emergency(es + [e])
  {
    RunIs(es);
    RunIs(es + [e]);
    WantedRuns(es);
    assert (es + [e])[..|es + [e]| - 1] == es;
  }

  predicate NoStart(fs: seq<Event>) { forall i :: 0 <= i < |fs| ==> !fs[i].StartRequest? }

  lemma {:induction false} StaysUnwanted(es: seq<Event>, fs: seq<Event>)
    requires !Wanted(es) && NoStart(fs)
    ensures !Wanted(es + fs)
  {
    if fs == [] {
      assert es + fs == es;
    } else {
      StaysUnwanted(es, fs[..|fs| - 1]);
      assert (es + fs)[..|es + fs| - 1] == es + fs[..|fs| - 1];
    }
  }

  /** A stop and a modem restart end the request: until a new start nobody is called, and the next expiry
      stops the timer. */
  lemma EndedIsSilent(es: seq<Event>, end: Event, fs: seq<Event>, e: Event)
    requires (end == StopRequest || end == EngineUp) && NoStart(fs) && !e.StartRequest?
    ensures var r := Next(Run(INITIAL, es + [end] + fs), e);
      r.callbacks == 0 && !r.state.requestActive && (e == TimerExpired ==> !r.state.timerActive)
  {
    var ended := es + [end];
    assert ended[..|ended| - 1] == es;
    assert !Wanted(ended);
    StaysUnwanted(ended, fs);
    RunCalls(ended + fs, e);
    RunIs(ended + fs);
  }
}
