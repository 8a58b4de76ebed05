/** What goes wrong when two transfers are at one temporary file at the same time, and exactly when. */
module TransferClashes {
  import opened RangeHeader
  import opened Transfer
  import opened TransferContent

  // ---- What clashing transfers break ----

  /** The step by which a clashing transfer breaks another one's position: its next bytes, its end or its opening. */
  function Disturbance(sources: Sources, s: State, h: nat): Action
    requires h in s.handlers && Active(s.handlers[h]) && s.handlers[h].job.key in sources
  {
    var handler, source := s.handlers[h], sources[s.handlers[h].job.key];
    if !handler.Writing? then Open(h)
    else if handler.written < |source| then Chunk(h, source[handler.written..])
    else Finish(h)
  }

  lemma DisturbanceIsHonest(sources: Sources, s: State, h: nat, g: nat)
    requires PathsSound(sources, s) && ContentSound(sources, s) && Clashing(s, h, g)
    ensures s.handlers[h].job.key in sources && Honest(sources, s, Disturbance(sources, s, h))
  {
    var job := s.handlers[h].job;
    assert SoundHandler(sources, s, s.handlers[h]) && SoundPosition(s, s.handlers[h]);
    if s.handlers[h].Writing? {
      assert s.temps[TempOf(job.key)] <= sources[job.key];
    } else {
      OffsetIsServed(0, |sources[job.key]|);
    }
  }

  lemma DisturbanceBreaks(sources: Sources, s: State, h: nat, g: nat)
    requires PathsSound(sources, s) && ContentSound(sources, s) && Clashing(s, h, g)
    requires s.handlers[h].job.key in sources
    ensures !ContentSound(sources, Step(s, Disturbance(sources, s, h)))
  {
    var t := Step(s, Disturbance(sources, s, h));
    assert SoundHandler(sources, s, s.handlers[h]);
    assert SoundPosition(s, s.handlers[h]) && SoundPosition(s, s.handlers[g]);
    if s.handlers[h].Writing? {
      assert s.temps[TempOf(s.handlers[h].job.key)] <= sources[s.handlers[h].job.key];
    }
    assert g in t.handlers && t.handlers[g] == s.handlers[g];
    assert !SoundPosition(t, s.handlers[g]);
  }

  /** In a sound state every honest step keeps what resuming relies on exactly when no two transfers clash. */
  lemma KeptUnlessClashing(sources: Sources, s: State)
    requires NoCollisions(sources) && PathsSound(sources, s) && ContentSound(sources, s)
    ensures NoClash(s) <==> forall a :: Honest(sources, s, a) ==> ContentSound(sources, Step(s, a))
  {
    hide Step, PathsSound, ContentSound, Honest, Clashing, NoCollisions;
    if NoClash(s) {
      forall a | Honest(sources, s, a)
        ensures ContentSound(sources, Step(s, a))
      {
        ContentStaysSound(sources, s, a);
      }
    } else {
      var h, g :| Clashing(s, h, g);
      DisturbanceIsHonest(sources, s, h, g);
      ClashingIsActive(s, h, g);
      DisturbanceBreaks(sources, s, h, g);
    }
  }

  lemma ClashingIsActive(s: State, h: nat, g: nat)
    requires Clashing(s, h, g)
    ensures h in s.handlers && Active(s.handlers[h])
  {
  }

  /**
   * Without exclusive access resuming is not safe, for any source: two writers that agreed on the same offset
   * each append all the rest, and the file is then longer than its source.
   */
  lemma TwoWritersBreak(sources: Sources, s: State, h: nat, g: nat, offset: nat)
    requires PathsSound(sources, s) && ContentSound(sources, s)
    requires h in s.handlers && g in s.handlers && h != g
    requires s.handlers[h].Writing? && s.handlers[g].Writing? && s.handlers[h].job.key == s.handlers[g].job.key
    requires s.handlers[h].append && s.handlers[g].append
    requires s.handlers[h].written == s.handlers[g].written == offset
    requires s.handlers[h].job.key in sources && offset < |sources[s.handlers[h].job.key]|
    ensures
      var key := s.handlers[h].job.key;
      var rest := sources[key][offset..];
      var path := TempOf(key);
      var first := Step(s, Chunk(h, rest));
      && Honest(sources, s, Chunk(h, rest)) && Honest(sources, first, Chunk(g, rest))
      && path in first.temps && first.temps[path] == sources[key]
      && path in Step(first, Chunk(g, rest)).temps && !(Step(first, Chunk(g, rest)).temps[path] <= sources[key])
  {
    hide PathsSound, ContentSound, Step;
    var key := s.handlers[h].job.key;
    var rest, path := sources[key][offset..], TempOf(key);
    WriterIsWithin(sources, s, h);
    WriterIsWithin(sources, s, g);
    assert s.temps[path] + rest == sources[key];
    ChunkAppends(s, h, rest);
    ChunkAppends(Step(s, Chunk(h, rest)), g, rest);
  }

  lemma WriterIsWithin(sources: Sources, s: State, h: nat)
    requires PathsSound(sources, s) && ContentSound(sources, s) && h in s.handlers && s.handlers[h].Writing?
    ensures
      var job := s.handlers[h].job;
      && SoundJob(sources, job) && job.temp_path in s.temps
      && |s.temps[job.temp_path]| == s.handlers[h].written && s.temps[job.temp_path] <= sources[job.key]
  {
    assert SoundHandler(sources, s, s.handlers[h]) && SoundPosition(s, s.handlers[h]);
  }

  /**
   * The same with one writer that starts anew: it empties the file under a writer that appends, which then delivers
   * only the end of the source, without an error.
   */
  lemma TruncationBreaks(sources: Sources, s: State, h: nat, g: nat)
    requires PathsSound(sources, s) && ContentSound(sources, s)
    requires h in s.handlers && g in s.handlers && h != g && s.handlers[h].Measured? && s.handlers[g].Writing?
    requires s.handlers[h].job.key == s.handlers[g].job.key && s.handlers[h].offset == 0
    requires s.handlers[g].append && s.handlers[g].job.key in sources
    requires 0 < s.handlers[g].written < |sources[s.handlers[g].job.key]|
    ensures
      var source, job := sources[s.handlers[g].job.key], s.handlers[g].job;
      var rest := source[s.handlers[g].written..];
      var emptied := Step(s, Open(h));
      var wrote := Step(emptied, Chunk(g, rest));
      && Honest(sources, s, Open(h)) && Honest(sources, emptied, Chunk(g, rest)) && Honest(sources, wrote, Finish(g))
      && job.final_path in Step(wrote, Finish(g)).finals
      && Step(wrote, Finish(g)).finals[job.final_path] == rest != source
  {
    hide Step, PathsSound, ContentSound, ParseRangeHeader, RequestHeader;
    var source := sources[s.handlers[g].job.key];
    var rest := source[s.handlers[g].written..];
    JobIsSound(sources, s, h);
    JobIsSound(sources, s, g);
    OffsetIsServed(0, |source|);
    OpeningEmpties(s, h, g);
    EmptiedDelivers(Step(s, Open(h)), g, rest);
  }

  lemma EmptiedDelivers(s: State, h: nat, rest: Bytes)
    requires h in s.handlers && s.handlers[h].Writing? && s.handlers[h].append
    requires s.handlers[h].job.temp_path in s.temps && s.temps[s.handlers[h].job.temp_path] == []
    ensures
      var Writing(job, append, written) := s.handlers[h];
      var wrote := Step(s, Chunk(h, rest));
      && h in wrote.handlers && wrote.handlers[h] == Writing(job, append, written + |rest|)
      && job.final_path in Step(wrote, Finish(h)).finals && Step(wrote, Finish(h)).finals[job.final_path] == rest
  {
    ChunkAppends(s, h, rest);
    ChunkMoves(s, h, rest);
    hide Step;
    assert [] + rest == rest;
    BodyEnds(Step(s, Chunk(h, rest)), h, s.handlers[h].job);
  }

  lemma OpeningEmpties(s: State, h: nat, g: nat)
    requires h in s.handlers && g in s.handlers && h != g && s.handlers[h].Measured? && s.handlers[h].offset == 0
    ensures Step(s, Open(h)).temps == s.temps[s.handlers[h].job.temp_path := []]
    ensures g in Step(s, Open(h)).handlers && Step(s, Open(h)).handlers[g] == s.handlers[g]
  {
  }

  lemma ChunkMoves(s: State, h: nat, data: Bytes)
    requires h in s.handlers && s.handlers[h].Writing?
    ensures
      var Writing(job, append, written) := s.handlers[h];
      h in Step(s, Chunk(h, data)).handlers
      && Step(s, Chunk(h, data)).handlers[h] == Writing(job, append, written + |data|)
  {
  }

  /** Writers that all started anew do no harm: each writes the source over itself. */
  lemma RewritingIsHarmless(sources: Sources, s: State, h: nat, data: Bytes)
    requires h in s.handlers && s.handlers[h].Writing? && !s.handlers[h].append
    requires SoundJob(sources, s.handlers[h].job) && Honest(sources, s, Chunk(h, data))
    requires var path := s.handlers[h].job.temp_path;
      && path in s.temps && s.temps[path] <= sources[s.handlers[h].job.key]
      && s.handlers[h].written <= |s.temps[path]|
    ensures
      var path := s.handlers[h].job.temp_path;
      && path in Step(s, Chunk(h, data)).temps
      && s.temps[path] <= Step(s, Chunk(h, data)).temps[path] <= sources[s.handlers[h].job.key]
  {
    var Writing(job, _, written) := s.handlers[h];
    var content, source := s.temps[job.temp_path], sources[job.key];
    assert Step(s, Chunk(h, data)).temps == s.temps[job.temp_path := WriteAt(content, false, written, data)];
    hide Step;
    assert content == source[..|content|];
    assert content[..written] == source[..written];
    var end := written + |data|;
    assert source[..written] + source[written..end] == source[..end];
    if end < |content| {
      assert content[end..] == source[end..|content|];
      assert WriteAt(content, false, written, data) == source[..|content|];
    } else if written < |content| {
      assert WriteAt(content, false, written, data) == source[..end];
    } else {
      assert Zeros(0) == [];
      assert WriteAt(content, false, written, data) == source[..end];
    }
  }
}
