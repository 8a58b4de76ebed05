/** When every delivered file is the source of its own transfer: exactly when none can go on with bytes of another. */
module TransferMixing {
  import opened RangeHeader
  import opened Transfer
  import opened TransferCollisions
  import opened TransferContent

  ghost predicate NoMixing(sources: Sources) { forall first, second, n: nat :: !MayMix(sources, first, second, n) }

  /** Some source of this file starts with these bytes. */
  ghost predicate StartsSome(sources: Sources, path: string, content: Bytes) {
    exists key :: key in sources && TempOf(key) == path && content <= sources[key]
  }

  /** A writer is within its source, and its file holds its own bytes up to its position. */
  ghost predicate OwnBytes(sources: Sources, s: State, handler: Handler) {
    handler.Writing? && handler.job.key in sources && handler.job.temp_path in s.temps ==>
      handler.written <= |sources[handler.job.key]|
      && s.temps[handler.job.temp_path] == sources[handler.job.key][..handler.written]
  }

  /** Every temporary file starts some source, and every writer has its own bytes before it. */
  ghost predicate MixSound(sources: Sources, s: State) {
    && PositionsSound(s)
    && (forall path :: path in s.temps ==> StartsSome(sources, path, s.temps[path]))
    && (forall h :: h in s.handlers ==> OwnBytes(sources, s, s.handlers[h]))
  }

  lemma ChunkOwns(sources: Sources, s: State, h: nat, data: Bytes)
    requires MixSound(sources, s) && PathsSound(sources, s) && Honest(sources, s, Chunk(h, data))
    requires h in s.handlers && s.handlers[h].Writing?
    ensures
      var Writing(job, append, written) := s.handlers[h];
      && job.key in sources && job.temp_path in s.temps && written + |data| <= |sources[job.key]|
      && WriteAt(s.temps[job.temp_path], append, written, data) == sources[job.key][..written + |data|]
  {
    var Writing(job, append, written) := s.handlers[h];
    JobIsSound(sources, s, h);
    assert SoundPosition(s, s.handlers[h]) && OwnBytes(sources, s, s.handlers[h]);
    hide PathsSound, MixSound;
    WrittenAtEnd(s.temps[job.temp_path], append, data);
    assert sources[job.key][..written] + data == sources[job.key][..written + |data|];
  }

  /** A transfer that goes on in a file is within its source and finds its own bytes there. */
  lemma OpenOwns(sources: Sources, s: State, h: nat)
    requires NoMixing(sources) && MixSound(sources, s) && PathsSound(sources, s) && Honest(sources, s, Open(h))
    requires h in s.handlers && s.handlers[h].Measured?
    ensures
      var Measured(job, offset) := s.handlers[h];
      && job.key in sources && job.temp_path == TempOf(job.key)
      && (0 < offset ==>
            offset <= |sources[job.key]|
            && job.temp_path in s.temps && s.temps[job.temp_path] == sources[job.key][..offset])
  {
    var Measured(job, offset) := s.handlers[h];
    JobIsSound(sources, s, h);
    assert SoundPosition(s, s.handlers[h]);
    if 0 < offset {
      OffsetIsServed(offset, |sources[job.key]|);
      hide ParseRangeHeader, RequestHeader, PathsSound;
      var content := s.temps[job.temp_path];
      assert StartsSome(sources, job.temp_path, content);
      var key :| key in sources && TempOf(key) == job.temp_path && content <= sources[key];
      assert content == sources[key][..offset];
      assert !MayMix(sources, key, job.key, offset);
    }
  }

  lemma TempsStayStarts(sources: Sources, s: State, a: Action, path: string)
    requires MixSound(sources, s) && PathsSound(sources, s) && Honest(sources, s, a) && path in NextTemps(s, a)
    ensures StartsSome(sources, path, NextTemps(s, a)[path])
  {
    if path in s.temps && NextTemps(s, a)[path] == s.temps[path] {
      assert StartsSome(sources, path, s.temps[path]);
    } else {
      var job := s.handlers[a.h].job;
      JobIsSound(sources, s, a.h);
      if a.Chunk? { ChunkOwns(sources, s, a.h, a.data); }
      hide MixSound, PathsSound, WriteAt;
      assert TempOf(job.key) == path && NextTemps(s, a)[path] <= sources[job.key];
    }
  }

  /** Whoever acts without a clash leaves the bytes of another writer alone. */
  lemma OtherBytesStay(s: State, a: Action, h: nat)
    requires h in s.handlers && s.handlers[h].Writing? && a.h != h && !Clashing(s, a.h, h)
    requires SoundPosition(s, s.handlers[h])
    ensures
      var path := s.handlers[h].job.temp_path;
      path in s.temps && path in NextTemps(s, a) && NextTemps(s, a)[path] == s.temps[path]
  {
    hide WriteAt;
  }

  lemma OtherOwnsStill(sources: Sources, s: State, a: Action, h: nat)
    requires MixSound(sources, s) && NoClash(s) && h in s.handlers && a.h != h
    ensures OwnBytes(sources, Step(s, a), s.handlers[h])
  {
    assert !Clashing(s, a.h, h);
    assert SoundPosition(s, s.handlers[h]) && OwnBytes(sources, s, s.handlers[h]);
    hide MixSound, NoClash, NextSessions, NextPartials, NextFinals, NextHandlers, NextTemps, Clashing, SoundPosition;
    if s.handlers[h].Writing? { OtherBytesStay(s, a, h); }
  }

  lemma OpenedOwns(sources: Sources, s: State, h: nat)
    requires NoMixing(sources) && MixSound(sources, s) && PathsSound(sources, s) && Honest(sources, s, Open(h))
    requires h in s.handlers && s.handlers[h].Measured?
    ensures h in Step(s, Open(h)).handlers && OwnBytes(sources, Step(s, Open(h)), Step(s, Open(h)).handlers[h])
  {
    hide NoMixing, MixSound, PathsSound, Honest, Step;
    OpenOwns(sources, s, h);
    OpenWrites(s, h);
  }

  lemma GrownOwns(sources: Sources, s: State, h: nat, data: Bytes)
    requires MixSound(sources, s) && PathsSound(sources, s) && Honest(sources, s, Chunk(h, data))
    requires h in s.handlers && s.handlers[h].Writing?
    ensures h in Step(s, Chunk(h, data)).handlers
    ensures OwnBytes(sources, Step(s, Chunk(h, data)), Step(s, Chunk(h, data)).handlers[h])
  {
    hide MixSound, PathsSound, Honest, Step, WriteAt;
    ChunkOwns(sources, s, h, data);
    ChunkWrites(s, h, data);
  }

  lemma RestingOwns(sources: Sources, s: State, a: Action)
    requires MixSound(sources, s) && a.h in s.handlers && s.handlers[a.h].Writing?
    requires !a.Chunk? && !a.Finish? && a.h in NextHandlers(s, a)
    ensures OwnBytes(sources, Step(s, a), NextHandlers(s, a)[a.h])
  {
    assert OwnBytes(sources, s, s.handlers[a.h]);
    hide MixSound, Step, NextHandlers;
    NothingWritten(s, a);
  }

  lemma NextIsStep(s: State, a: Action)
    ensures Step(s, a).handlers == NextHandlers(s, a)
  {
    hide NextHandlers;
  }

  lemma ActingOwns(sources: Sources, s: State, a: Action)
    requires NoMixing(sources) && MixSound(sources, s) && PathsSound(sources, s) && Honest(sources, s, a)
    requires a.h in NextHandlers(s, a)
    ensures OwnBytes(sources, Step(s, a), NextHandlers(s, a)[a.h])
  {
    hide NoMixing, MixSound, PathsSound, Honest, Step, NextHandlers;
    NextIsStep(s, a);
    if NextHandlers(s, a)[a.h].Writing? {
      WritersComeFrom(s, a);
      if s.handlers[a.h].Measured? {
        assert a == Open(a.h);
        OpenedOwns(sources, s, a.h);
      } else if a.Chunk? {
        assert a == Chunk(a.h, a.data);
        GrownOwns(sources, s, a.h, a.data);
      } else {
        RestingOwns(sources, s, a);
      }
    }
  }

  lemma NoWriterEnters(s: State, a: Action)
    requires Entered(s, a).Some?
    ensures !Entered(s, a).value.Writing?
  {
  }

  lemma WritersContinue(s: State, a: Action)
    requires a.h in s.handlers && Continued(s, a).Some? && Continued(s, a).value.Writing?
    ensures (s.handlers[a.h].Measured? && a.Open?) || (s.handlers[a.h].Writing? && !a.Finish?)
  {
    if s.handlers[a.h].Preparing? { NoWriterPrepares(s, a); }
    hide ContinuedPrepare;
  }

  lemma NoWriterPrepares(s: State, a: Action)
    requires a.h in s.handlers && s.handlers[a.h].Preparing? && Continued(s, a).Some?
    ensures Continued(s, a).value.Preparing?
  {
  }

  lemma WritersComeFrom(s: State, a: Action)
    requires a.h in NextHandlers(s, a) && NextHandlers(s, a)[a.h].Writing?
    ensures a.h in s.handlers
    ensures (s.handlers[a.h].Measured? && a.Open?) || (s.handlers[a.h].Writing? && !a.Finish?)
  {
    hide Continued, Entered;
    if a.h in s.handlers { WritersContinue(s, a); } else { NoWriterEnters(s, a); }
  }

  lemma OpenWrites(s: State, h: nat)
    requires h in s.handlers && s.handlers[h].Measured?
    ensures
      var Measured(job, offset) := s.handlers[h];
      var t := Step(s, Open(h));
      && h in t.handlers && t.handlers[h] == Writing(job, offset > 0, offset)
      && t.temps
         == s.temps[job.temp_path := if offset > 0 && job.temp_path in s.temps then s.temps[job.temp_path] else []]
  {
  }

  lemma ChunkWrites(s: State, h: nat, data: Bytes)
    requires h in s.handlers && s.handlers[h].Writing? && s.handlers[h].job.temp_path in s.temps
    ensures
      var Writing(job, append, written) := s.handlers[h];
      var t := Step(s, Chunk(h, data));
      && h in t.handlers && t.handlers[h] == Writing(job, append, written + |data|)
      && t.temps == s.temps[job.temp_path := WriteAt(s.temps[job.temp_path], append, written, data)]
  {
    hide WriteAt;
  }

  lemma NothingWritten(s: State, a: Action)
    requires a.h in s.handlers && s.handlers[a.h].Writing? && !a.Chunk? && !a.Finish? && a.h in NextHandlers(s, a)
    ensures Step(s, a).temps == s.temps && NextHandlers(s, a)[a.h] == s.handlers[a.h]
  {
  }

  lemma MixStaysSound(sources: Sources, s: State, a: Action)
    requires NoMixing(sources) && NoClash(s)
    requires PathsSound(sources, s) && MixSound(sources, s) && Honest(sources, s, a)
    ensures MixSound(sources, Step(s, a))
  {
    var t := Step(s, a);
    forall path | path in t.temps
      ensures StartsSome(sources, path, t.temps[path])
    {
      TempsStayStarts(sources, s, a, path);
    }
    forall h | h in t.handlers
      ensures SoundPosition(t, t.handlers[h]) && OwnBytes(sources, t, t.handlers[h])
    {
      if h == a.h {
        ActingPositionIsSound(s, a);
        ActingOwns(sources, s, a);
      } else {
        assert !Clashing(s, a.h, h);
        OtherPositionStaysSound(s, a, h);
        OtherOwnsStill(sources, s, a, h);
      }
    }
  }

  /** Each final path holds the source of the transfer that was last finished there. */
  ghost predicate OwnDelivered(sources: Sources, actions: seq<Action>) {
    var finals, delivered := Run(actions).finals, Delivered(actions);
    && finals.Keys == delivered.Keys
    && forall path :: path in finals ==> delivered[path] in sources && finals[path] == sources[delivered[path]]
  }

  lemma FinishOwns(sources: Sources, s: State, a: Action)
    requires PathsSound(sources, s) && MixSound(sources, s) && Honest(sources, s, a) && Finishes(s, a)
    ensures
      var job := s.handlers[a.h].job;
      job.key in sources && Step(s, a).finals == s.finals[job.final_path := sources[job.key]]
  {
    var job := s.handlers[a.h].job;
    JobIsSound(sources, s, a.h);
    assert OwnBytes(sources, s, s.handlers[a.h]);
    assert sources[job.key][..|sources[job.key]|] == sources[job.key];
    hide PathsSound, MixSound, NextSessions, NextPartials, NextTemps, NextHandlers;
  }

  lemma {:induction false} RunsDoNotMix(sources: Sources, actions: seq<Action>, n: nat)
    requires NoMixing(sources) && Possible(sources, actions) && n <= |actions|
    ensures PathsSound(sources, Run(actions[..n])) && MixSound(sources, Run(actions[..n]))
    ensures OwnDelivered(sources, actions[..n])
    decreases n
  {
    hide Step, Run, Honest, PathsSound, MixSound, NoMixing;
    if n == 0 {
      NothingMixed(sources);
      assert actions[..0] == [];
    } else {
      var s, a := Run(actions[..n - 1]), actions[n - 1];
      RunsDoNotMix(sources, actions, n - 1);
      RunStep(actions, n - 1);
      PathsStaySound(sources, s, a);
      MixStaysSound(sources, s, a);
      assert actions[..n][..n - 1] == actions[..n - 1];
      if Finishes(s, a) {
        FinishOwns(sources, s, a);
      } else {
        FinalsStayUnlessFinished(s, a);
      }
    }
  }

  lemma NothingMixed(sources: Sources)
    ensures PathsSound(sources, Run([])) && MixSound(sources, Run([])) && OwnDelivered(sources, [])
  {
  }

  /**
   * Over every possible run all delivered files are the sources of their own transfers exactly when no transfer may go
   * on with bytes of another one that are not its own.
   */
  lemma OwnUnlessMixing(sources: Sources)
    ensures NoMixing(sources) <==> forall actions :: Possible(sources, actions) ==> OwnDelivered(sources, actions)
  {
    hide Run, Possible, MayMix;
    if NoMixing(sources) {
      forall actions | Possible(sources, actions)
        ensures OwnDelivered(sources, actions)
      {
        RunsDoNotMix(sources, actions, |actions|);
        assert actions[..|actions|] == actions;
      }
    } else {
      var first, second, n :| MayMix(sources, first, second, n);
      var actions := MixIsDelivered(sources, first, second, n);
      assert !OwnDelivered(sources, actions);
    }
  }
}
