/** Configuration writes (src/core/src/native_config_write.rs, `execute_checked`, the write and
    recover branches) over the effect store.  Calls exclude each other by a lock that a crash
    releases; a crash can fall between any two file operations.  Anybody may edit a
    configuration source at any moment, but not the evidence files.  A revision stands for
    the bytes it digests. */
module ConfigWrite {
  import opened Wrappers
  import opened Effects
  import Machine

  const EFFECT := "configuration-source"
  const RECOVER := "configuration.recover-write"
  const WRITE := "configuration.write"
  const DEFER := "configuration.defer-choice"

  /** The invocation's destination is the source and its value the bytes to be written;
      `bound` is the content of the source it was admitted for. */
  datatype Job = Job(root: string, decision: Decision, invocation: Invocation, bound: Option<string>)

  datatype Marker = Marker(invocation: Invocation, custody: Custody, outcome: Outcome)

  type Spot = (string, string)

  /** Effect files, prepared markers, temporaries (None: torn), the sources, and every content
      a source ever had. */
  datatype World = World(
    files: Files,
    markers: map<Spot, Option<Marker>>,
    temporaries: map<(string, Invocation), Option<string>>,
    sources: map<string, string>,
    seen: set<Spot>)

  function OutcomeOf(invocation: Invocation): Outcome {
    Outcome("applied", [EFFECT],
            if invocation.operation == RECOVER then "recovered " + invocation.value else invocation.value)
  }

  function SpotOf(invocation: Invocation): Spot {
    (invocation.destination, invocation.value)
  }

  function Temporary(invocation: Invocation): (string, Invocation) {
    (invocation.destination, invocation)
  }

  function Content(w: World, source: string): Option<string> {
    if source in w.sources then Some(w.sources[source]) else None
  }

  /** The source gets this content. */
  function Receive(w: World, source: string, content: string): World {
    w.(sources := w.sources[source := content], seen := w.seen + {(source, content)})
  }

  // ----- one call, one file operation at a time -----

  datatype WritePc =
    | Begin
    | ReadMarker
    | Preparing(marker: Marker, sub: Effects.Pc)
    | CheckTemporary(previous: Option<Marker>)
    | Admitting(previous: Option<Marker>, sub: Effects.Pc)
    | OpenMarker(held: Custody)
    | WriteMarker(held: Custody)
    | ReadTemporary(held: Custody)
    | OpenTemporary(held: Custody)
    | WriteTemporary(held: Custody)
    | CheckSources(held: Custody)
    | Publish(held: Custody)
    | RemoveTemporary(held: Custody)
    | Published(held: Custody)
    | Committing(held: Custody, sub: Effects.Pc)
    | RecoverAdmitting(marker: Marker, sub: Effects.Pc)
    | RecoverRead(marker: Marker, held: Custody)
    | RecoverCommitting(marker: Marker, held: Custody, sub: Effects.Pc)
    | Finished(result: Option<(Outcome, Custody)>)

  const Stop: WritePc := Finished(None)

  predicate InStore(pc: WritePc) {
    pc.Preparing? || pc.Admitting? || pc.Committing? || pc.RecoverAdmitting? || pc.RecoverCommitting?
  }

  function SubRequest(job: Job, pc: WritePc): Request
    requires InStore(pc)
  {
    match pc
    case Preparing(marker, _) => Prepare(marker.custody, marker.outcome)
    case Admitting(previous, _) =>
      Admit(job.decision, job.invocation, if previous.Some? then Some(previous.value.custody) else None)
    case Committing(held, _) => Commit(held, OutcomeOf(job.invocation))
    case RecoverAdmitting(_, _) => Admit(job.decision, job.invocation, None)
    case RecoverCommitting(marker, _, _) => Commit(marker.custody, marker.outcome)
  }

  /** `retained`: a marker that is whole and matches its exact attempt. */
  predicate Retained(root: string, w: World, spot: Spot, marker: Marker) {
    var invocation, attempt := marker.invocation, marker.custody.attempt;
    && Has(w.files, attempt.path, EffectDoc(attempt.revision)) && attempt.target == root
    && attempt.revision.invocation == invocation
    && invocation.operation == WRITE && invocation.target == root && SpotOf(invocation) == spot
    && marker.outcome == OutcomeOf(invocation)
  }

  function AfterMarker(job: Job, w: World): WritePc {
    var spot := SpotOf(job.invocation);
    if spot !in w.markers then
      if job.invocation.operation == RECOVER then Stop else CheckTemporary(None)
    else match w.markers[spot]
      case None => Stop
      case Some(marker) =>
        if !Retained(job.root, w, spot, marker) then Stop
        else if job.invocation.operation == RECOVER then RecoverAdmitting(marker, Start)
        else Preparing(marker, Start)
  }

  function AfterStore(job: Job, pc: WritePc, reply: Reply, w: World): WritePc
    requires InStore(pc)
  {
    match pc
    case Preparing(marker, _) =>
      if !reply.Returned? || reply.custody.committed.None? || reply.custody.committed.value.path in w.files then Stop
      else CheckTemporary(Some(marker))
    case Admitting(previous, _) =>
      if !reply.Admitted? then Stop
      else if previous.None? then OpenMarker(reply.custody)
      else ReadTemporary(reply.custody)
    case Committing(_, _) =>
      if reply.Returned? then Finished(Some((OutcomeOf(job.invocation), reply.custody))) else Stop
    case RecoverAdmitting(marker, _) => if reply.Admitted? then RecoverRead(marker, reply.custody) else Stop
    case RecoverCommitting(_, held, _) => if reply.Returned? then Committing(held, Start) else Stop
  }

  /** `current` says whether the revalidation and the source checks of the step succeed. */
  function Step(job: Job, pc: WritePc, me: Call, w: World, current: bool): (WritePc, World) {
    if InStore(pc) then StoreStep(job, pc, me, w) else FileStep(job, pc, w, current)
  }

  function StoreStep(job: Job, pc: WritePc, me: Call, w: World): (WritePc, World)
    requires InStore(pc)
  {
    if pc.sub.Done? then (AfterStore(job, pc, pc.sub.reply, w), w)
    else
      var (sub, files) := Effects.Step(job.root, SubRequest(job, pc), pc.sub, me, w.files);
      (pc.(sub := sub), w.(files := files))
  }

  function FileStep(job: Job, pc: WritePc, w: World, current: bool): (WritePc, World)
    requires !InStore(pc)
  {
    var invocation := job.invocation;
    var spot, temporary := SpotOf(invocation), Temporary(invocation);
    match pc
    case Begin => (if current && invocation.operation != DEFER then ReadMarker else Stop, w)
    case ReadMarker => (AfterMarker(job, w), w)
    case CheckTemporary(previous) =>
      (if previous.None? && temporary in w.temporaries then Stop
       else if previous.Some? && previous.value.invocation != invocation then Stop
       else Admitting(previous, Start), w)
    case OpenMarker(held) =>
      if spot in w.markers then (Stop, w) else (WriteMarker(held), w.(markers := w.markers[spot := None]))
    case WriteMarker(held) =>
      (ReadTemporary(held), w.(markers := w.markers[spot := Some(Marker(invocation, held, OutcomeOf(invocation)))]))
    case ReadTemporary(held) =>
      (if temporary !in w.temporaries then OpenTemporary(held)
       else if w.temporaries[temporary] == Some(invocation.value) then CheckSources(held)
       else Stop, w)
    case OpenTemporary(held) =>
      if temporary in w.temporaries then (Stop, w)
      else (WriteTemporary(held), w.(temporaries := w.temporaries[temporary := None]))
    case WriteTemporary(held) =>
      (CheckSources(held), w.(temporaries := w.temporaries[temporary := Some(invocation.value)]))
    case CheckSources(held) =>
      (if current && Content(w, invocation.destination) == job.bound then Publish(held) else Stop, w)
    case Publish(held) =>
      if temporary !in w.temporaries || w.temporaries[temporary].None? then (Stop, w)
      else
        var published := Receive(w, invocation.destination, w.temporaries[temporary].value);
        if job.bound.Some? then (Published(held), published.(temporaries := w.temporaries - {temporary}))
        else if invocation.destination in w.sources then (Stop, w)
        else (RemoveTemporary(held), published)
    case RemoveTemporary(held) => (Published(held), w.(temporaries := w.temporaries - {temporary}))
    case Published(held) => (if current then Committing(held, Start) else Stop, w)
    case RecoverRead(marker, held) =>
      (if current && Content(w, invocation.destination) == Some(invocation.value)
       then RecoverCommitting(marker, held, Start) else Stop, w)
    case Finished(_) => (pc, w)
  }

  // ----- what the evidence says -----

  /** A result, even a torn one, follows the moment its source held the admitted bytes. */
  ghost predicate ResultOk(root: string, w: World, key: string) {
    ResultPath(key) in w.files ==>
      && Full(w.files, AttemptPath(key)) && w.files[AttemptPath(key)].doc.value.EffectDoc?
      && var invocation := w.files[AttemptPath(key)].doc.value.record.invocation;
      && SpotOf(invocation) in w.seen
      && Holding(w.files[ResultPath(key)], EffectDoc(Sealed(invocation, Some(OutcomeOf(invocation)))))
  }

  /** A marker is the exact evidence of an attempted write of its own spot. */
  ghost predicate Backed(root: string, w: World, spot: Spot, marker: Marker) {
    && spot in w.markers && w.markers[spot] == Some(marker)
    && Effects.Attempted(root, w.files, marker.invocation) && SpotOf(marker.invocation) == spot
    && marker == Marker(marker.invocation, RunCustody(root, marker.invocation), OutcomeOf(marker.invocation))
  }

  ghost predicate WorldOk(root: string, w: World) {
    && (forall key :: AttemptOk(root, w.files, key))
    && (forall key :: ResultOk(root, w, key))
    && (forall spot :: spot in w.markers && w.markers[spot].Some? ==> Backed(root, w, spot, w.markers[spot].value))
    && (forall t :: t in w.temporaries && w.temporaries[t].Some? ==> w.temporaries[t] == Some(t.1.value))
    && forall source :: source in w.sources ==> (source, w.sources[source]) in w.seen
  }

  // ----- what the call that holds the lock knows -----

  /** The call may still publish: its attempt is made and its result is not. */
  ghost predicate Open(job: Job, w: World, held: Custody) {
    && Effects.Attempted(job.root, w.files, job.invocation)
    && held == RunCustody(job.root, job.invocation)
    && ResultPath(job.invocation.key) !in w.files
  }

  /** And its marker is on file. */
  ghost predicate Marked(job: Job, w: World, held: Custody) {
    Open(job, w, held) && Backed(job.root, w, SpotOf(job.invocation),
                                 Marker(job.invocation, held, OutcomeOf(job.invocation)))
  }

  ghost predicate Landed(job: Job, w: World, held: Custody) {
    && Effects.Attempted(job.root, w.files, job.invocation)
    && held == RunCustody(job.root, job.invocation)
    && SpotOf(job.invocation) in w.seen
  }

  ghost predicate PcOk(job: Job, w: World, me: Call, pc: WritePc) {
    && (InStore(pc) ==> Effects.PcOk(job.root, w.files, me, SubRequest(job, pc), pc.sub))
    && match pc
    case Preparing(marker, _) => Backed(job.root, w, SpotOf(job.invocation), marker)
    case CheckTemporary(Some(marker)) =>
      Backed(job.root, w, SpotOf(job.invocation), marker) && ResultPath(marker.invocation.key) !in w.files
    case Admitting(Some(marker), _) =>
      && Backed(job.root, w, SpotOf(job.invocation), marker)
      && marker.invocation == job.invocation && Open(job, w, marker.custody)
    case Admitting(None, sub) => (sub.Write? || (sub.Done? && sub.reply.Admitted?)) ==>
        ResultPath(job.invocation.key) !in w.files
    case OpenMarker(held) => Open(job, w, held)
    case WriteMarker(held) => Open(job, w, held)
    case ReadTemporary(held) => Marked(job, w, held)
    case OpenTemporary(held) => Marked(job, w, held)
    case WriteTemporary(held) => Marked(job, w, held)
    case CheckSources(held) => Marked(job, w, held)
    case Publish(held) => Marked(job, w, held)
    case RemoveTemporary(held) => Landed(job, w, held)
    case Published(held) => Landed(job, w, held)
    case Committing(held, _) => Landed(job, w, held)
    case RecoverAdmitting(marker, _) => Backed(job.root, w, SpotOf(job.invocation), marker)
    case RecoverRead(marker, held) =>
      && Backed(job.root, w, SpotOf(job.invocation), marker)
      && Effects.Attempted(job.root, w.files, job.invocation) && held == RunCustody(job.root, job.invocation)
    case RecoverCommitting(marker, held, _) =>
      Backed(job.root, w, SpotOf(job.invocation), marker) && Landed(job, w, held)
    case Finished(Some((outcome, custody))) =>
      && outcome == OutcomeOf(job.invocation) && custody == Planned(job.root, job.invocation, outcome)
      && SpotOf(job.invocation) in w.seen
      && Has(w.files, ResultPath(job.invocation.key), EffectDoc(Sealed(job.invocation, Some(outcome))))
    case _ => true
  }

  lemma PreparedKeeps(job: Job, pc: WritePc, me: Call, w: World)
    requires pc.Preparing? && pc.sub.Done? && PcOk(job, w, me, pc)
    ensures PcOk(job, w, me, AfterStore(job, pc, pc.sub.reply, w))
  {
    CommitSealsIfValid(pc.marker.invocation, OutcomeOf(pc.marker.invocation));
  }

  lemma AdmittedKeeps(job: Job, pc: WritePc, me: Call, w: World)
    requires (pc.Admitting? || pc.RecoverAdmitting?) && pc.sub.Done? && PcOk(job, w, me, pc)
    ensures PcOk(job, w, me, AfterStore(job, pc, pc.sub.reply, w))
  {
  }

  lemma CommittedKeeps(job: Job, pc: WritePc, me: Call, w: World)
    requires (pc.Committing? || pc.RecoverCommitting?) && pc.sub.Done? && PcOk(job, w, me, pc)
    ensures PcOk(job, w, me, AfterStore(job, pc, pc.sub.reply, w))
  {
    CommitSealsIfValid(job.invocation, OutcomeOf(job.invocation));
  }

  lemma MarkerKeeps(job: Job, me: Call, w: World)
    requires WorldOk(job.root, w)
    ensures PcOk(job, w, me, AfterMarker(job, w))
  {
  }

  lemma WriteKeeps(job: Job, pc: WritePc, me: Call, w: World, current: bool)
    requires pc.OpenMarker? || pc.WriteMarker? || pc.OpenTemporary? || pc.WriteTemporary? || pc.RemoveTemporary?
    requires PcOk(job, w, me, pc)
    ensures var (pc', w') := FileStep(job, pc, w, current); PcOk(job, w', me, pc')
  {
  }

  lemma PublishKeeps(job: Job, pc: WritePc, me: Call, w: World, current: bool)
    requires pc.Publish? && PcOk(job, w, me, pc) && WorldOk(job.root, w)
    ensures var (pc', w') := FileStep(job, pc, w, current); PcOk(job, w', me, pc')
  {
  }

  lemma ReadKeeps(job: Job, pc: WritePc, me: Call, w: World, current: bool)
    requires pc.Begin? || pc.CheckTemporary? || pc.ReadTemporary? || pc.CheckSources? || pc.Published?
      || pc.RecoverRead? || pc.Finished?
    requires PcOk(job, w, me, pc) && WorldOk(job.root, w)
    ensures var (pc', w') := FileStep(job, pc, w, current); PcOk(job, w', me, pc')
  {
  }

  lemma AdmitStepKeeps(job: Job, pc: WritePc, me: Call, w: World)
    requires (pc.Admitting? || pc.RecoverAdmitting?) && !pc.sub.Done? && PcOk(job, w, me, pc) && WorldOk(job.root, w)
    ensures var (pc', w') := StoreStep(job, pc, me, w); PcOk(job, w', me, pc') && Touches(me, w.files, w'.files)
  {
    Effects.StepKeeps(job.root, w.files, me, SubRequest(job, pc), pc.sub);
    assert ResultOk(job.root, w, job.invocation.key);
  }

  lemma OtherStepKeeps(job: Job, pc: WritePc, me: Call, w: World)
    requires (pc.Preparing? || pc.Committing? || pc.RecoverCommitting?) && !pc.sub.Done? && PcOk(job, w, me, pc)
    ensures var (pc', w') := StoreStep(job, pc, me, w); PcOk(job, w', me, pc') && Touches(me, w.files, w'.files)
  {
    Effects.StepKeeps(job.root, w.files, me, SubRequest(job, pc), pc.sub);
  }

  // ----- every step keeps the evidence consistent -----

  lemma FilesKeep(root: string, w: World, files: Files)
    requires WorldOk(root, w) && Grows(w.files, files)
    requires forall key :: AttemptOk(root, files, key)
    requires forall key :: ResultOk(root, w.(files := files), key)
    ensures WorldOk(root, w.(files := files))
  {
    var w' := w.(files := files);
    forall spot | spot in w'.markers && w'.markers[spot].Some? ensures Backed(root, w', spot, w'.markers[spot].value) {
      assert Backed(root, w, spot, w.markers[spot].value);
    }
  }

  lemma PutAttempt(root: string, w: World, invocation: Invocation, file: File)
    requires WorldOk(root, w) && !Full(w.files, AttemptPath(invocation.key))
    requires AttemptPath(invocation.key) in w.files ==> w.files[AttemptPath(invocation.key)].creator == file.creator
    requires invocation.target == root && invocation.key != "" && Holding(file, EffectDoc(Sealed(invocation, None)))
    ensures WorldOk(root, w.(files := w.files[AttemptPath(invocation.key) := file]))
  {
    var files := w.files[AttemptPath(invocation.key) := file];
    forall key ensures AttemptOk(root, files, key) { assert AttemptOk(root, w.files, key); }
    forall key ensures ResultOk(root, w.(files := files), key) { assert ResultOk(root, w, key); }
    FilesKeep(root, w, files);
  }

  lemma PutResult(root: string, w: World, invocation: Invocation, file: File)
    requires WorldOk(root, w) && !Full(w.files, ResultPath(invocation.key))
    requires ResultPath(invocation.key) in w.files ==> w.files[ResultPath(invocation.key)].creator == file.creator
    requires Effects.Attempted(root, w.files, invocation) && SpotOf(invocation) in w.seen
    requires Holding(file, EffectDoc(Sealed(invocation, Some(OutcomeOf(invocation)))))
    ensures WorldOk(root, w.(files := w.files[ResultPath(invocation.key) := file]))
  {
    var files := w.files[ResultPath(invocation.key) := file];
    forall key ensures AttemptOk(root, files, key) { assert AttemptOk(root, w.files, key); }
    forall key ensures ResultOk(root, w.(files := files), key) { assert ResultOk(root, w, key); }
    FilesKeep(root, w, files);
  }

  lemma ReceiveKeeps(root: string, w: World, source: string, content: string)
    requires WorldOk(root, w)
    ensures WorldOk(root, Receive(w, source, content))
  {
    var w' := Receive(w, source, content);
    forall key ensures ResultOk(root, w', key) { assert ResultOk(root, w, key); }
    forall spot | spot in w'.markers && w'.markers[spot].Some? ensures Backed(root, w', spot, w'.markers[spot].value) {
      assert Backed(root, w, spot, w.markers[spot].value);
    }
  }

  lemma RestKeeps(root: string, w: World, w': World)
    requires WorldOk(root, w) && w'.files == w.files && w'.sources == w.sources && w'.seen == w.seen
    requires forall spot :: spot in w'.markers && w'.markers[spot].Some? ==>
      Backed(root, w.(markers := w'.markers), spot, w'.markers[spot].value)
    requires forall t :: t in w'.temporaries && w'.temporaries[t].Some? ==> w'.temporaries[t] == Some(t.1.value)
    ensures WorldOk(root, w')
  {
    forall key ensures ResultOk(root, w', key) { assert ResultOk(root, w, key); }
    forall spot | spot in w'.markers && w'.markers[spot].Some? ensures Backed(root, w', spot, w'.markers[spot].value) {
      assert Backed(root, w.(markers := w'.markers), spot, w'.markers[spot].value);
    }
  }

  lemma AdmitKeepsWorld(job: Job, pc: WritePc, me: Call, w: World)
    requires (pc.Admitting? || pc.RecoverAdmitting?) && !pc.sub.Done? && PcOk(job, w, me, pc) && WorldOk(job.root, w)
    ensures WorldOk(job.root, StoreStep(job, pc, me, w).1)
  {
    var w' := StoreStep(job, pc, me, w).1;
    if pc.sub.Open? || pc.sub.Write? {
      if w' != w {
        PutAttempt(job.root, w, job.invocation, w'.files[AttemptPath(job.invocation.key)]);
      }
    }
  }

  lemma CommitKeepsWorld(job: Job, pc: WritePc, me: Call, w: World)
    requires pc.Committing? && !pc.sub.Done? && PcOk(job, w, me, pc) && WorldOk(job.root, w)
    ensures WorldOk(job.root, StoreStep(job, pc, me, w).1)
  {
    var w' := StoreStep(job, pc, me, w).1;
    if pc.sub.Open? || pc.sub.Write? {
      CommitSealsIfValid(job.invocation, OutcomeOf(job.invocation));
      assert pc.sub.record == Sealed(job.invocation, Some(OutcomeOf(job.invocation)));
      if w' != w {
        PutResult(job.root, w, job.invocation, w'.files[ResultPath(job.invocation.key)]);
      }
    }
  }

  lemma RecoverKeepsWorld(job: Job, pc: WritePc, me: Call, w: World)
    requires pc.RecoverCommitting? && !pc.sub.Done? && PcOk(job, w, me, pc) && WorldOk(job.root, w)
    ensures WorldOk(job.root, StoreStep(job, pc, me, w).1)
  {
    var w' := StoreStep(job, pc, me, w).1;
    var invocation := pc.marker.invocation;
    if pc.sub.Open? || pc.sub.Write? {
      CommitSealsIfValid(invocation, OutcomeOf(invocation));
      assert pc.sub.record == Sealed(invocation, Some(OutcomeOf(invocation)));
      if w' != w {
        PutResult(job.root, w, invocation, w'.files[ResultPath(invocation.key)]);
      }
    }
  }

  lemma PublishKeepsWorld(job: Job, pc: WritePc, w: World, current: bool)
    requires pc.Publish? && WorldOk(job.root, w)
    ensures WorldOk(job.root, FileStep(job, pc, w, current).1)
  {
    var w' := FileStep(job, pc, w, current).1;
    if w' != w {
      var content := w.temporaries[Temporary(job.invocation)].value;
      ReceiveKeeps(job.root, w, job.invocation.destination, content);
      RestKeeps(job.root, Receive(w, job.invocation.destination, content), w');
    }
  }

  lemma WriteKeepsWorld(job: Job, pc: WritePc, me: Call, w: World, current: bool)
    requires pc.OpenMarker? || pc.WriteMarker? || pc.OpenTemporary? || pc.WriteTemporary? || pc.RemoveTemporary?
    requires PcOk(job, w, me, pc) && WorldOk(job.root, w)
    ensures WorldOk(job.root, FileStep(job, pc, w, current).1)
  {
    var w' := FileStep(job, pc, w, current).1;
    forall spot | spot in w'.markers && w'.markers[spot].Some?
      ensures Backed(job.root, w.(markers := w'.markers), spot, w'.markers[spot].value)
    {
      assert spot in w.markers && w.markers[spot] == w'.markers[spot] ==>
          Backed(job.root, w, spot, w'.markers[spot].value);
    }
    RestKeeps(job.root, w, w');
  }

  lemma StoreKeeps(job: Job, pc: WritePc, me: Call, w: World)
    requires InStore(pc) && !pc.sub.Done? && PcOk(job, w, me, pc) && WorldOk(job.root, w)
    ensures var (pc', w') := StoreStep(job, pc, me, w);
            PcOk(job, w', me, pc') && WorldOk(job.root, w') && Grows(w.files, w'.files)
  {
    if pc.Admitting? || pc.RecoverAdmitting? {
      AdmitStepKeeps(job, pc, me, w);
      AdmitKeepsWorld(job, pc, me, w);
    } else {
      OtherStepKeeps(job, pc, me, w);
      if pc.Committing? {
        CommitKeepsWorld(job, pc, me, w);
      } else if pc.RecoverCommitting? {
        RecoverKeepsWorld(job, pc, me, w);
      }
    }
  }

  lemma AnswerKeeps(job: Job, pc: WritePc, me: Call, w: World)
    requires InStore(pc) && pc.sub.Done? && PcOk(job, w, me, pc)
    ensures PcOk(job, w, me, AfterStore(job, pc, pc.sub.reply, w))
  {
    if pc.Preparing? {
      PreparedKeeps(job, pc, me, w);
    } else if pc.Admitting? || pc.RecoverAdmitting? {
      AdmittedKeeps(job, pc, me, w);
    } else {
      CommittedKeeps(job, pc, me, w);
    }
  }

  lemma FileKeeps(job: Job, pc: WritePc, me: Call, w: World, current: bool)
    requires !InStore(pc) && PcOk(job, w, me, pc) && WorldOk(job.root, w)
    ensures var (pc', w') := FileStep(job, pc, w, current); PcOk(job, w', me, pc') && WorldOk(job.root, w')
  {
    if pc.ReadMarker? {
      MarkerKeeps(job, me, w);
    } else if pc.Publish? {
      PublishKeeps(job, pc, me, w, current);
      PublishKeepsWorld(job, pc, w, current);
    } else if pc.OpenMarker? || pc.WriteMarker? || pc.OpenTemporary? || pc.WriteTemporary? || pc.RemoveTemporary? {
      WriteKeeps(job, pc, me, w, current);
      WriteKeepsWorld(job, pc, me, w, current);
    } else {
      ReadKeeps(job, pc, me, w, current);
    }
  }

  /** Every step keeps what its call knows and what the evidence says. */
  lemma StepKeeps(job: Job, pc: WritePc, me: Call, w: World, current: bool)
    requires PcOk(job, w, me, pc) && WorldOk(job.root, w)
    ensures var (pc', w') := Step(job, pc, me, w, current); PcOk(job, w', me, pc') && WorldOk(job.root, w')
    ensures var w' := Step(job, pc, me, w, current).1; Grows(w.files, w'.files) && w.seen <= w'.seen
  {
    if !InStore(pc) {
      FileKeeps(job, pc, me, w, current);
    } else if pc.sub.Done? {
      AnswerKeeps(job, pc, me, w);
    } else {
      StoreKeeps(job, pc, me, w);
    }
  }

  // ----- every run of crashing calls and outside edits -----

  datatype Holder = Holder(call: Call, job: Job, pc: WritePc)

  /** The world and the call that holds the lock. */
  datatype Host = Host(world: World, holder: Option<Holder>)

  ghost predicate Arrives(root: string, s: Host, s': Host, h: Holder) {
    s.holder.None? && h.job.root == root && h.pc == Begin && s' == s.(holder := Some(h))
  }

  ghost predicate Works(s: Host, s': Host, current: bool) {
    && s.holder.Some?
    && var h := s.holder.value;
       var (pc, w) := Step(h.job, h.pc, h.call, s.world, current);
       s' == Host(w, Some(h.(pc := pc)))
  }

  /** Anybody writes or removes a source. */
  ghost predicate Edits(s: Host, s': Host, source: string, content: Option<string>) {
    s' == s.(world := if content.Some? then Receive(s.world, source, content.value)
                      else s.world.(sources := s.world.sources - {source}))
  }

  /** The call that holds the lock ends or crashes; another arrives; the holder makes its next
      step; or somebody edits a source. */
  ghost predicate Next(root: string, s: Host, s': Host) {
    || s' == s.(holder := None)
    || (exists h :: Arrives(root, s, s', h))
    || (exists current :: Works(s, s', current))
    || (exists source, content :: Edits(s, s', source, content))
  }

  ghost predicate Initial(s: Host) {
    && s.holder.None? && s.world.files == map[] && s.world.markers == map[] && s.world.temporaries == map[]
    && forall source, content :: (source, content) in s.world.seen <==> Content(s.world, source) == Some(content)
  }

  ghost predicate Run(root: string, run: seq<Host>) {
    && run != [] && Initial(run[0])
    && forall i :: 0 <= i < |run| - 1 ==> Next(root, run[i], run[i + 1])
  }

  ghost predicate Consistent(root: string, s: Host) {
    && WorldOk(root, s.world)
    && (s.holder.Some? ==>
          var h := s.holder.value; h.job.root == root && PcOk(h.job, s.world, h.call, h.pc))
  }

  lemma BackedStays(root: string, w: World, w': World, spot: Spot, marker: Marker)
    requires Backed(root, w, spot, marker) && w'.files == w.files && w'.markers == w.markers
    ensures Backed(root, w', spot, marker)
  {
  }

  lemma EditKeepsPc(job: Job, w: World, w': World, me: Call, pc: WritePc)
    requires PcOk(job, w, me, pc) && w.seen <= w'.seen
    requires w'.files == w.files && w'.markers == w.markers && w'.temporaries == w.temporaries
    ensures PcOk(job, w', me, pc)
  {
    forall spot, marker | Backed(job.root, w, spot, marker) ensures Backed(job.root, w', spot, marker) {
      BackedStays(job.root, w, w', spot, marker);
    }
  }

  lemma EditKeeps(root: string, s: Host, s': Host, source: string, content: Option<string>)
    requires Consistent(root, s) && Edits(s, s', source, content)
    ensures Consistent(root, s')
  {
    if content.Some? {
      ReceiveKeeps(root, s.world, source, content.value);
    } else {
      forall key ensures ResultOk(root, s'.world, key) { assert ResultOk(root, s.world, key); }
      forall spot | spot in s'.world.markers && s'.world.markers[spot].Some?
        ensures Backed(root, s'.world, spot, s'.world.markers[spot].value)
      {
        BackedStays(root, s.world, s'.world, spot, s.world.markers[spot].value);
      }
    }
    if s.holder.Some? {
      var h := s.holder.value;
      EditKeepsPc(h.job, s.world, s'.world, h.call, h.pc);
    }
  }

  lemma NextKeeps(root: string, s: Host, s': Host)
    requires Consistent(root, s) && Next(root, s, s')
    ensures Consistent(root, s') && Grows(s.world.files, s'.world.files)
  {
    if current :| Works(s, s', current) {
      var h := s.holder.value;
      StepKeeps(h.job, h.pc, h.call, s.world, current);
    } else if source, content :| Edits(s, s', source, content) {
      EditKeeps(root, s, s', source, content);
    }
  }

  lemma {:induction false} RunKeeps(root: string, run: seq<Host>, i: nat, j: nat)
    requires Run(root, run) && i <= j < |run|
    ensures Consistent(root, run[j]) && Grows(run[i].world.files, run[j].world.files)
    decreases j
  {
    if j > 0 {
      RunKeeps(root, run, if i < j then i else j - 1, j - 1);
      NextKeeps(root, run[j - 1], run[j]);
      if i < j {
        GrowsTransitive(run[i].world.files, run[j - 1].world.files, run[j].world.files);
      }
    }
  }

  // ----- commit implies publication -----

  lemma StepSeen(job: Job, pc: WritePc, me: Call, w: World, current: bool, spot: Spot)
    requires spot in Step(job, pc, me, w, current).1.seen && spot !in w.seen
    ensures Content(Step(job, pc, me, w, current).1, spot.0) == Some(spot.1)
  {
    if !InStore(pc) {
      assert pc.Publish?;
    }
  }

  lemma SeenGrows(root: string, s: Host, s': Host, spot: Spot)
    requires Next(root, s, s') && spot in s'.world.seen && spot !in s.world.seen
    ensures Content(s'.world, spot.0) == Some(spot.1)
  {
    if current :| Works(s, s', current) {
      var h := s.holder.value;
      StepSeen(h.job, h.pc, h.call, s.world, current, spot);
    } else if source, content :| Edits(s, s', source, content) {
    }
  }

  /** Whatever a source is recorded to have held, it held. */
  lemma {:induction false} SeenWasThere(root: string, run: seq<Host>, i: nat, spot: Spot) returns (k: nat)
    requires Run(root, run) && i < |run| && spot in run[i].world.seen
    ensures k <= i && Content(run[k].world, spot.0) == Some(spot.1)
  {
    k := i;
    if i == 0 {
      assert Initial(run[0]) && (spot.0, spot.1) in run[0].world.seen;
    } else {
      assert Next(root, run[i - 1], run[i]);
      if spot in run[i - 1].world.seen {
        k := SeenWasThere(root, run, i - 1, spot);
      } else {
        SeenGrows(root, run[i - 1], run[i], spot);
      }
    }
  }

  /** An effect has a result file only if, at that moment or before, its source held exactly the
      admitted bytes; a whole result is the applied outcome for them. */
  lemma CommitImpliesPublication(root: string, run: seq<Host>, i: nat, key: string)
    returns (invocation: Invocation, k: nat)
    requires Run(root, run) && i < |run| && ResultPath(key) in run[i].world.files
    ensures invocation.key == key && Effects.Attempted(root, run[i].world.files, invocation)
    ensures Holding(run[i].world.files[ResultPath(key)], EffectDoc(Sealed(invocation, Some(OutcomeOf(invocation)))))
    ensures k <= i && Content(run[k].world, invocation.destination) == Some(invocation.value)
  {
    RunKeeps(root, run, i, i);
    assert AttemptOk(root, run[i].world.files, key) && ResultOk(root, run[i].world, key);
    invocation := run[i].world.files[AttemptPath(key)].doc.value.record.invocation;
    k := SeenWasThere(root, run, i, SpotOf(invocation));
  }

  /** A successful call has committed its result and its source held the admitted bytes. */
  lemma SuccessIsCommitted(root: string, run: seq<Host>, i: nat) returns (k: nat)
    requires Run(root, run) && i < |run| && run[i].holder.Some?
    requires run[i].holder.value.pc.Finished? && run[i].holder.value.pc.result.Some?
    ensures var invocation := run[i].holder.value.job.invocation;
      && run[i].holder.value.pc.result.value ==
           (OutcomeOf(invocation), Planned(root, invocation, OutcomeOf(invocation)))
      && Has(run[i].world.files, ResultPath(invocation.key), EffectDoc(Sealed(invocation, Some(OutcomeOf(invocation)))))
      && k <= i && Content(run[k].world, invocation.destination) == Some(invocation.value)
  {
    RunKeeps(root, run, i, i);
    k := SeenWasThere(root, run, i, SpotOf(run[i].holder.value.job.invocation));
  }

  // ----- what a call may do to a source -----

  lemma StoreSparesSources(job: Job, pc: WritePc, me: Call, w: World)
    requires InStore(pc)
    ensures StoreStep(job, pc, me, w).1.sources == w.sources
  {
  }

  lemma OnlyPublishWrites(job: Job, pc: WritePc, me: Call, w: World, current: bool)
    requires PcOk(job, w, me, pc) && WorldOk(job.root, w)
    requires Step(job, pc, me, w, current).1.sources != w.sources
    ensures pc.Publish? && Step(job, pc, me, w, current).1.sources
      == w.sources[job.invocation.destination := job.invocation.value]
  {
    if InStore(pc) {
      StoreSparesSources(job, pc, me, w);
    }
  }

  /** A call changes nothing but its own source, to exactly the admitted bytes, and only while
      its attempt and marker are on file and it has no result yet; one admitted for an absent
      source never replaces a source that has appeared. */
  lemma WriteIsExact(root: string, run: seq<Host>, i: nat, current: bool)
    requires Run(root, run) && i + 1 < |run| && Works(run[i], run[i + 1], current)
    requires run[i + 1].world.sources != run[i].world.sources
    ensures var job, w := run[i].holder.value.job, run[i].world;
      && run[i + 1].world.sources == w.sources[job.invocation.destination := job.invocation.value]
      && Effects.Attempted(root, w.files, job.invocation) && ResultPath(job.invocation.key) !in w.files
      && Backed(root, w, SpotOf(job.invocation),
                Marker(job.invocation, RunCustody(root, job.invocation), OutcomeOf(job.invocation)))
      && (job.bound.None? ==> job.invocation.destination !in w.sources)
  {
    RunKeeps(root, run, i, i);
    var h := run[i].holder.value;
    OnlyPublishWrites(h.job, h.pc, h.call, run[i].world, current);
  }

  /** A consumed write never touches a source again: once its effect has a result, even a torn
      one, no later step of any call for that effect changes a source. */
  lemma ConsumedWritePreservesSources(root: string, run: seq<Host>, i: nat, j: nat, current: bool)
    requires Run(root, run) && i <= j && j + 1 < |run| && Works(run[j], run[j + 1], current)
    requires ResultPath(run[j].holder.value.job.invocation.key) in run[i].world.files
    ensures run[j + 1].world.sources == run[j].world.sources
  {
    RunKeeps(root, run, i, j);
    if run[j + 1].world.sources != run[j].world.sources {
      WriteIsExact(root, run, j, current);
    }
  }

  // ----- recovery of one call left alone -----

  /** The call's steps with nobody else acting and every revalidation succeeding. */
  function Stepping(job: Job, me: Call): (WritePc, World) -> (WritePc, World) {
    (pc: WritePc, w: World) => Step(job, pc, me, w, true)
  }

  predicate Ended(pc: WritePc) {
    pc.Finished?
  }

  ghost predicate Leads(job: Job, me: Call, start: World, pc: WritePc, w: World) {
    Machine.Leads(Stepping(job, me), Ended, (Begin, start), (pc, w))
  }

  lemma Here(job: Job, me: Call, w: World)
    ensures Leads(job, me, w, Begin, w)
  {
    Machine.Here(Stepping(job, me), Ended, (Begin, w));
  }

  lemma Then(job: Job, me: Call, start: World, pc: WritePc, w: World, pc': WritePc, w': World)
    requires Leads(job, me, start, pc, w) && !pc.Finished?
    requires Step(job, pc, me, w, true) == (pc', w')
    ensures Leads(job, me, start, pc', w')
  {
    Machine.Then(Stepping(job, me), Ended, (Begin, start), (pc, w), (pc', w'));
  }

  function Settled(root: string, invocation: Invocation): (Outcome, Custody) {
    (OutcomeOf(invocation), Planned(root, invocation, OutcomeOf(invocation)))
  }

  function SealedOutcome(invocation: Invocation): Record {
    Sealed(invocation, Some(OutcomeOf(invocation)))
  }

  ghost predicate Committable(root: string, files: Files, invocation: Invocation) {
    && Effects.Attempted(root, files, invocation) && ResultPath(invocation.key) !in files
    && ValidOutcome(invocation, OutcomeOf(invocation))
  }

  lemma CommitFinishes(job: Job, me: Call, start: World, w: World, held: Custody) returns (w': World)
    requires Committable(job.root, w.files, job.invocation) && held == RunCustody(job.root, job.invocation)
    requires Leads(job, me, start, Committing(held, Start), w)
    ensures Leads(job, me, start, Finished(Some(Settled(job.root, job.invocation))), w')
    ensures w' == w.(files := w'.files) && Grows(w.files, w'.files)
    ensures Has(w'.files, ResultPath(job.invocation.key), EffectDoc(SealedOutcome(job.invocation)))
  {
    var sealed, path := SealedOutcome(job.invocation), ResultPath(job.invocation.key);
    CommitSeals(job.invocation, OutcomeOf(job.invocation));
    Then(job, me, start, Committing(held, Start), w, Committing(held, Effects.Open(sealed)), w);
    var begun := w.(files := w.files[path := File(me, None)]);
    Then(job, me, start, Committing(held, Effects.Open(sealed)), w, Committing(held, Effects.Write(sealed)), begun);
    w' := w.(files := w.files[path := File(me, Some(EffectDoc(sealed)))]);
    assert begun.files[path := File(me, Some(EffectDoc(sealed)))] == w'.files;
    var answer := Done(Returned(sealed, Planned(job.root, job.invocation, OutcomeOf(job.invocation))));
    Then(job, me, start, Committing(held, Effects.Write(sealed)), begun, Committing(held, answer), w');
    Then(job, me, start, Committing(held, answer), w', Finished(Some(Settled(job.root, job.invocation))), w');
  }

  /** A first admission of an offered invocation makes its attempt file. */
  lemma RecoverAdmitRuns(job: Job, me: Call, start: World, w: World, marker: Marker) returns (w': World)
    requires Leads(job, me, start, RecoverAdmitting(marker, Start), w)
    requires job.invocation.key != "" && job.invocation.target == job.root
    requires AdmitInvocation(job.decision, job.invocation, None)
    requires AttemptPath(job.invocation.key) !in w.files && ResultPath(job.invocation.key) !in w.files
    ensures w' == w.(files := w.files[
      AttemptPath(job.invocation.key) := File(me, Some(EffectDoc(Sealed(job.invocation, None))))])
    ensures Leads(job, me, start, RecoverRead(marker, RunCustody(job.root, job.invocation)), w')
  {
    var sealed, path := Sealed(job.invocation, None), AttemptPath(job.invocation.key);
    Then(job, me, start, RecoverAdmitting(marker, Start), w, RecoverAdmitting(marker, Stat(sealed)), w);
    Then(job, me, start, RecoverAdmitting(marker, Stat(sealed)), w, RecoverAdmitting(marker, Effects.Open(sealed)), w);
    var begun := w.(files := w.files[path := File(me, None)]);
    Then(job, me, start, RecoverAdmitting(marker, Effects.Open(sealed)), w,
         RecoverAdmitting(marker, Effects.Write(sealed)), begun);
    w' := w.(files := w.files[path := File(me, Some(EffectDoc(sealed)))]);
    assert begun.files[path := File(me, Some(EffectDoc(sealed)))] == w'.files;
    var answer := Done(Admitted(Execute, sealed, RunCustody(job.root, job.invocation)));
    Then(job, me, start, RecoverAdmitting(marker, Effects.Write(sealed)), begun, RecoverAdmitting(marker, answer), w');
    Then(job, me, start, RecoverAdmitting(marker, answer), w',
         RecoverRead(marker, RunCustody(job.root, job.invocation)), w');
  }

  /** Committing the interrupted write: refused when it was committed before. */
  lemma RecoverCommitRuns(job: Job, me: Call, start: World, w: World, marker: Marker, held: Custody) returns (w': World)
    requires Leads(job, me, start, RecoverCommitting(marker, held, Start), w)
    requires Effects.Attempted(job.root, w.files, marker.invocation)
    requires marker == Marker(marker.invocation, RunCustody(job.root, marker.invocation), OutcomeOf(marker.invocation))
    requires ValidOutcome(marker.invocation, OutcomeOf(marker.invocation))
    ensures ResultPath(marker.invocation.key) in w.files ==> Leads(job, me, start, Stop, w')
    ensures w'.sources == w.sources
    ensures ResultPath(marker.invocation.key) !in w.files ==>
      && Leads(job, me, start, Committing(held, Start), w')
      && w' == w.(files := w.files[ResultPath(marker.invocation.key) :=
                                   File(me, Some(EffectDoc(SealedOutcome(marker.invocation))))])
  {
    var sealed, path := SealedOutcome(marker.invocation), ResultPath(marker.invocation.key);
    CommitSeals(marker.invocation, OutcomeOf(marker.invocation));
    Then(job, me, start, RecoverCommitting(marker, held, Start), w,
         RecoverCommitting(marker, held, Effects.Open(sealed)), w);
    if path in w.files {
      w' := w;
      Then(job, me, start, RecoverCommitting(marker, held, Effects.Open(sealed)), w,
           RecoverCommitting(marker, held, Done(Failed)), w);
      Then(job, me, start, RecoverCommitting(marker, held, Done(Failed)), w, Stop, w);
      return;
    }
    var begun := w.(files := w.files[path := File(me, None)]);
    Then(job, me, start, RecoverCommitting(marker, held, Effects.Open(sealed)), w,
         RecoverCommitting(marker, held, Effects.Write(sealed)), begun);
    w' := w.(files := w.files[path := File(me, Some(EffectDoc(sealed)))]);
    assert begun.files[path := File(me, Some(EffectDoc(sealed)))] == w'.files;
    var answer := Done(Returned(sealed, Planned(job.root, marker.invocation, OutcomeOf(marker.invocation))));
    Then(job, me, start, RecoverCommitting(marker, held, Effects.Write(sealed)), begun,
         RecoverCommitting(marker, held, answer), w');
    Then(job, me, start, RecoverCommitting(marker, held, answer), w', Committing(held, Start), w');
  }

  /** A whole marker of a write, found on file. */
  ghost predicate Interrupted(job: Job, w: World, marker: Marker) {
    && WorldOk(job.root, w) && Backed(job.root, w, SpotOf(job.invocation), marker)
    && marker.invocation.operation == WRITE && ValidOutcome(marker.invocation, OutcomeOf(marker.invocation))
  }

  /** An invocation the owner offers now and nobody attempted before. */
  predicate Fresh(job: Job, w: World) {
    && job.invocation.key != "" && job.invocation.target == job.root && job.invocation.kind == INVOCATION_KIND
    && job.invocation in job.decision.ready && AttemptPath(job.invocation.key) !in w.files
  }

  lemma StaleRecoveryIsRefused(job: Job, me: Call, w: World, marker: Marker)
    requires WorldOk(job.root, w) && !Fresh(job, w) && Leads(job, me, w, RecoverAdmitting(marker, Start), w)
    ensures Leads(job, me, w, Stop, w)
  {
    var record, failed := Sealed(job.invocation, None), RecoverAdmitting(marker, Done(Failed));
    if job.invocation.key == "" || job.invocation.target != job.root
        || !AdmitInvocation(job.decision, job.invocation, None) {
      Then(job, me, w, RecoverAdmitting(marker, Start), w, failed, w);
    } else {
      Then(job, me, w, RecoverAdmitting(marker, Start), w, RecoverAdmitting(marker, Stat(record)), w);
      if ResultPath(job.invocation.key) in w.files {
        Then(job, me, w, RecoverAdmitting(marker, Stat(record)), w, failed, w);
      } else {
        var opening := RecoverAdmitting(marker, Effects.Open(record));
        Then(job, me, w, RecoverAdmitting(marker, Stat(record)), w, opening, w);
        Then(job, me, w, opening, w, failed, w);
      }
    }
    Then(job, me, w, failed, w, Stop, w);
  }

  /** Recovery is exact: left alone, it commits the interrupted write and itself when it is offered
      now and was not attempted before, the source holds the admitted bytes and the write was not
      committed before; otherwise it refuses.  It never touches a source. */
  lemma RecoveryIsExact(job: Job, me: Call, w: World, marker: Marker) returns (w': World)
    requires Interrupted(job, w, marker)
    requires job.invocation.operation == RECOVER && ValidOutcome(job.invocation, OutcomeOf(job.invocation))
    ensures var recovers := Fresh(job, w) && Content(w, job.invocation.destination) == Some(job.invocation.value)
                            && ResultPath(marker.invocation.key) !in w.files;
      && Leads(job, me, w, if recovers then Finished(Some(Settled(job.root, job.invocation))) else Stop, w')
      && w'.sources == w.sources
      && (recovers ==>
            && Has(w'.files, ResultPath(marker.invocation.key), EffectDoc(SealedOutcome(marker.invocation)))
            && Has(w'.files, ResultPath(job.invocation.key), EffectDoc(SealedOutcome(job.invocation))))
  {
    var held := RunCustody(job.root, job.invocation);
    assert ResultOk(job.root, w, job.invocation.key);
    Here(job, me, w);
    Then(job, me, w, Begin, w, ReadMarker, w);
    Then(job, me, w, ReadMarker, w, RecoverAdmitting(marker, Start), w);
    if !Fresh(job, w) {
      w' := w;
      StaleRecoveryIsRefused(job, me, w, marker);
      return;
    }
    var admitted := RecoverAdmitRuns(job, me, w, w, marker);
    w' := admitted;
    if Content(w, job.invocation.destination) != Some(job.invocation.value) {
      Then(job, me, w, RecoverRead(marker, held), admitted, Stop, admitted);
      return;
    }
    Then(job, me, w, RecoverRead(marker, held), admitted, RecoverCommitting(marker, held, Start), admitted);
    var committed := RecoverCommitRuns(job, me, w, admitted, marker, held);
    w' := committed;
    if ResultPath(marker.invocation.key) !in w.files {
      w' := CommitFinishes(job, me, w, committed, held);
    }
  }

  /** The operation still means what it meant when the invocation was made. */
  predicate Meant(job: Job) {
    && job.invocation.kind == INVOCATION_KIND && job.invocation.operationRevision != ""
    && job.invocation.operation in job.decision.revisions
    && job.decision.revisions[job.invocation.operation] == job.invocation.operationRevision
  }

  predicate Unfit(job: Job, w: World) {
    var temporary := Temporary(job.invocation);
    temporary in w.temporaries && w.temporaries[temporary] != Some(job.invocation.value)
  }

  function PlanOf(root: string, marker: Marker): Effects.Pc {
    Done(Returned(SealedOutcome(marker.invocation), Planned(root, marker.invocation, OutcomeOf(marker.invocation))))
  }

  lemma RetryPlans(job: Job, me: Call, w: World, marker: Marker)
    requires Interrupted(job, w, marker) && Leads(job, me, w, Preparing(marker, Start), w)
    ensures Leads(job, me, w,
      Preparing(marker,
                if TornFile(w.files, ResultPath(marker.invocation.key)) then Done(Failed)
                else PlanOf(job.root, marker)),
      w)
  {
    var record := SealedOutcome(marker.invocation);
    assert ResultOk(job.root, w, marker.invocation.key);
    CommitSeals(marker.invocation, OutcomeOf(marker.invocation));
    Then(job, me, w, Preparing(marker, Start), w, Preparing(marker, Stat(record)), w);
    if TornFile(w.files, ResultPath(marker.invocation.key)) {
      Then(job, me, w, Preparing(marker, Stat(record)), w, Preparing(marker, Done(Failed)), w);
    } else {
      Then(job, me, w, Preparing(marker, Stat(record)), w, Preparing(marker, PlanOf(job.root, marker)), w);
    }
  }

  lemma RetryChecks(job: Job, me: Call, w: World, marker: Marker)
    requires Interrupted(job, w, marker) && job.invocation.operation == WRITE
    ensures Leads(job, me, w,
      if ResultPath(marker.invocation.key) in w.files || marker.invocation != job.invocation || !Meant(job) then Stop
      else ReadTemporary(RunCustody(job.root, job.invocation)), w)
  {
    Here(job, me, w);
    Then(job, me, w, Begin, w, ReadMarker, w);
    Then(job, me, w, ReadMarker, w, Preparing(marker, Start), w);
    RetryPlans(job, me, w, marker);
    if TornFile(w.files, ResultPath(marker.invocation.key)) {
      Then(job, me, w, Preparing(marker, Done(Failed)), w, Stop, w);
    } else if ResultPath(marker.invocation.key) in w.files {
      Then(job, me, w, Preparing(marker, PlanOf(job.root, marker)), w, Stop, w);
    } else {
      Then(job, me, w, Preparing(marker, PlanOf(job.root, marker)), w, CheckTemporary(Some(marker)), w);
      RetryAdmitted(job, me, w, marker);
    }
  }

  lemma RetryAdmitted(job: Job, me: Call, w: World, marker: Marker)
    requires Interrupted(job, w, marker) && job.invocation.operation == WRITE
    requires Leads(job, me, w, CheckTemporary(Some(marker)), w)
    ensures Leads(job, me, w,
      if marker.invocation != job.invocation || !Meant(job) then Stop
      else ReadTemporary(RunCustody(job.root, job.invocation)), w)
  {
    if marker.invocation != job.invocation {
      Then(job, me, w, CheckTemporary(Some(marker)), w, Stop, w);
      return;
    }
    if !Meant(job) {
      Then(job, me, w, CheckTemporary(Some(marker)), w, Admitting(Some(marker), Start), w);
      Then(job, me, w, Admitting(Some(marker), Start), w, Admitting(Some(marker), Done(Failed)), w);
      Then(job, me, w, Admitting(Some(marker), Done(Failed)), w, Stop, w);
      return;
    }
    var answer := Done(Admitted(Uncertain, Sealed(job.invocation, None), RunCustody(job.root, job.invocation)));
    Then(job, me, w, CheckTemporary(Some(marker)), w, Admitting(Some(marker), Start), w);
    Then(job, me, w, Admitting(Some(marker), Start), w, Admitting(Some(marker), answer), w);
    Then(job, me, w, Admitting(Some(marker), answer), w, ReadTemporary(RunCustody(job.root, job.invocation)), w);
  }

  lemma RetryPrepares(job: Job, me: Call, start: World, w: World, held: Custody) returns (w': World)
    requires Leads(job, me, start, ReadTemporary(held), w) && !Unfit(job, w)
    ensures Leads(job, me, start, CheckSources(held), w')
    ensures w' == w.(temporaries := w.temporaries[Temporary(job.invocation) := Some(job.invocation.value)])
  {
    var temporary := Temporary(job.invocation);
    w' := w.(temporaries := w.temporaries[temporary := Some(job.invocation.value)]);
    if temporary in w.temporaries {
      assert w'.temporaries == w.temporaries;
      Then(job, me, start, ReadTemporary(held), w, CheckSources(held), w);
    } else {
      Then(job, me, start, ReadTemporary(held), w, OpenTemporary(held), w);
      var begun := w.(temporaries := w.temporaries[temporary := None]);
      Then(job, me, start, OpenTemporary(held), w, WriteTemporary(held), begun);
      assert begun.temporaries[temporary := Some(job.invocation.value)] == w'.temporaries;
      Then(job, me, start, WriteTemporary(held), begun, CheckSources(held), w');
    }
  }

  lemma RetryPublishes(job: Job, me: Call, start: World, w: World, held: Custody) returns (w': World)
    requires Leads(job, me, start, CheckSources(held), w) && Content(w, job.invocation.destination) == job.bound
    requires Temporary(job.invocation) in w.temporaries
      && w.temporaries[Temporary(job.invocation)] == Some(job.invocation.value)
    ensures Leads(job, me, start, Committing(held, Start), w')
    ensures w'.files == w.files && w'.sources == w.sources[job.invocation.destination := job.invocation.value]
    ensures Temporary(job.invocation) !in w'.temporaries
  {
    var linked := Receive(w, job.invocation.destination, job.invocation.value);
    w' := linked.(temporaries := w.temporaries - {Temporary(job.invocation)});
    Then(job, me, start, CheckSources(held), w, Publish(held), w);
    if job.bound.Some? {
      Then(job, me, start, Publish(held), w, Published(held), w');
    } else {
      Then(job, me, start, Publish(held), w, RemoveTemporary(held), linked);
      Then(job, me, start, RemoveTemporary(held), linked, Published(held), w');
    }
    Then(job, me, start, Published(held), w', Committing(held, Start), w');
  }

  /** A retry is exact: left alone over a whole marker it publishes the admitted bytes, commits
      and leaves no temporary, when the marker is its own, the operation still means the same, the
      write was not committed before, no torn or foreign temporary is in the way and the source is
      still the one it was admitted for; otherwise it refuses. */
  lemma RetryIsExact(job: Job, me: Call, w: World, marker: Marker) returns (w': World)
    requires Interrupted(job, w, marker) && job.invocation.operation == WRITE
    ensures var writes := ResultPath(marker.invocation.key) !in w.files && marker.invocation == job.invocation
                          && Meant(job) && !Unfit(job, w) && Content(w, job.invocation.destination) == job.bound;
      && Leads(job, me, w, if writes then Finished(Some(Settled(job.root, job.invocation))) else Stop, w')
      && (writes ==>
            && w'.sources == w.sources[job.invocation.destination := job.invocation.value]
            && Temporary(job.invocation) !in w'.temporaries
            && Has(w'.files, ResultPath(job.invocation.key), EffectDoc(SealedOutcome(job.invocation))))
      && (!writes ==> w'.sources == w.sources)
  {
    var held := RunCustody(job.root, job.invocation);
    RetryChecks(job, me, w, marker);
    w' := w;
    if ResultPath(marker.invocation.key) in w.files || marker.invocation != job.invocation || !Meant(job) {
      return;
    }
    if Unfit(job, w) {
      Then(job, me, w, ReadTemporary(held), w, Stop, w);
      return;
    }
    var prepared := RetryPrepares(job, me, w, w, held);
    w' := prepared;
    if Content(w, job.invocation.destination) != job.bound {
      Then(job, me, w, CheckSources(held), prepared, Stop, prepared);
      return;
    }
    var published := RetryPublishes(job, me, w, prepared, held);
    w' := CommitFinishes(job, me, w, published, held);
  }

  // ----- a write that finds no whole marker -----

  /** A marker that is not the evidence of a write of this very content to this very source, under
      this root, by an attempt on file, stops the call and nothing changes; so does its absence stop
      a recovery. */
  lemma ForeignMarkerRefuses(job: Job, me: Call, w: World)
    requires var spot := (job.invocation.destination, job.invocation.value);
      if spot !in w.markers then job.invocation.operation == RECOVER
      else w.markers[spot].Some? ==>
        var marker := w.markers[spot].value;
        var attempt := marker.custody.attempt;
        || marker.invocation.operation != WRITE || marker.invocation.target != job.root
        || marker.invocation.destination != job.invocation.destination
        || marker.invocation.value != job.invocation.value || marker.outcome != OutcomeOf(marker.invocation)
        || attempt.target != job.root || attempt.revision.invocation != marker.invocation
        || attempt.path !in w.files || w.files[attempt.path].doc != Some(EffectDoc(attempt.revision))
    ensures Leads(job, me, w, Stop, w)
  {
    Here(job, me, w);
    if job.invocation.operation == DEFER {
      Then(job, me, w, Begin, w, Stop, w);
    } else {
      Then(job, me, w, Begin, w, ReadMarker, w);
      Then(job, me, w, ReadMarker, w, Stop, w);
    }
  }

  /** Over a torn marker neither a write nor a recovery gets anywhere, and nothing changes. */
  lemma TornMarkerRefuses(job: Job, me: Call, w: World)
    requires SpotOf(job.invocation) in w.markers && w.markers[SpotOf(job.invocation)].None?
    ensures Leads(job, me, w, Stop, w)
  {
    ForeignMarkerRefuses(job, me, w);
  }

  lemma StaleIsRefused(job: Job, me: Call, w: World)
    requires WorldOk(job.root, w) && !Fresh(job, w) && Leads(job, me, w, Admitting(None, Start), w)
    ensures Leads(job, me, w, Stop, w)
  {
    var record, failed := Sealed(job.invocation, None), Admitting(None, Done(Failed));
    if job.invocation.key == "" || job.invocation.target != job.root
        || !AdmitInvocation(job.decision, job.invocation, None) {
      Then(job, me, w, Admitting(None, Start), w, failed, w);
    } else {
      Then(job, me, w, Admitting(None, Start), w, Admitting(None, Stat(record)), w);
      if ResultPath(job.invocation.key) in w.files {
        Then(job, me, w, Admitting(None, Stat(record)), w, failed, w);
      } else {
        Then(job, me, w, Admitting(None, Stat(record)), w, Admitting(None, Effects.Open(record)), w);
        Then(job, me, w, Admitting(None, Effects.Open(record)), w, failed, w);
      }
    }
    Then(job, me, w, failed, w, Stop, w);
  }

  lemma FreshBegins(job: Job, me: Call, w: World)
    requires Fresh(job, w) && ResultPath(job.invocation.key) !in w.files
    requires Leads(job, me, w, Admitting(None, Start), w)
    ensures Leads(job, me, w, Admitting(None, Effects.Write(Sealed(job.invocation, None))),
                  w.(files := w.files[AttemptPath(job.invocation.key) := File(me, None)]))
  {
    var record := Sealed(job.invocation, None);
    Then(job, me, w, Admitting(None, Start), w, Admitting(None, Stat(record)), w);
    Then(job, me, w, Admitting(None, Stat(record)), w, Admitting(None, Effects.Open(record)), w);
    Then(job, me, w, Admitting(None, Effects.Open(record)), w, Admitting(None, Effects.Write(record)),
         w.(files := w.files[AttemptPath(job.invocation.key) := File(me, None)]));
  }

  lemma FreshIsAdmitted(job: Job, me: Call, w: World) returns (w': World)
    requires Fresh(job, w) && ResultPath(job.invocation.key) !in w.files
    requires Leads(job, me, w, Admitting(None, Start), w)
    ensures w' == w.(files := w.files[
      AttemptPath(job.invocation.key) := File(me, Some(EffectDoc(Sealed(job.invocation, None))))])
    ensures Leads(job, me, w, OpenMarker(RunCustody(job.root, job.invocation)), w')
  {
    var record, path := Sealed(job.invocation, None), AttemptPath(job.invocation.key);
    var held := RunCustody(job.root, job.invocation);
    FreshBegins(job, me, w);
    var begun := w.(files := w.files[path := File(me, None)]);
    w' := w.(files := w.files[path := File(me, Some(EffectDoc(record)))]);
    assert begun.files[path := File(me, Some(EffectDoc(record)))] == w'.files;
    var answer := Admitting(None, Done(Admitted(Execute, record, held)));
    Then(job, me, w, Admitting(None, Effects.Write(record)), begun, answer, w');
    Then(job, me, w, answer, w', OpenMarker(held), w');
  }

  lemma MarkerIsWritten(job: Job, me: Call, start: World, w: World, held: Custody) returns (w': World)
    requires Leads(job, me, start, OpenMarker(held), w) && SpotOf(job.invocation) !in w.markers
    ensures w' == w.(markers := w.markers[
      SpotOf(job.invocation) := Some(Marker(job.invocation, held, OutcomeOf(job.invocation)))])
    ensures Leads(job, me, start, ReadTemporary(held), w')
  {
    var spot, marker := SpotOf(job.invocation), Marker(job.invocation, held, OutcomeOf(job.invocation));
    var begun := w.(markers := w.markers[spot := None]);
    Then(job, me, start, OpenMarker(held), w, WriteMarker(held), begun);
    w' := w.(markers := w.markers[spot := Some(marker)]);
    assert begun.markers[spot := Some(marker)] == w'.markers;
    Then(job, me, start, WriteMarker(held), begun, ReadTemporary(held), w');
  }

  /** A write without a marker is exact: left alone it publishes the admitted bytes, commits and
      leaves no temporary when it is fresh, no temporary is in the way and the source is the one it
      was admitted for; otherwise it refuses.  A crash between attempt and marker leaves it not
      fresh, so every retry refuses. */
  lemma UnmarkedWriteIsExact(job: Job, me: Call, w: World) returns (w': World)
    requires WorldOk(job.root, w) && SpotOf(job.invocation) !in w.markers
    requires job.invocation.operation == WRITE && ValidOutcome(job.invocation, OutcomeOf(job.invocation))
    ensures var writes := Fresh(job, w) && Temporary(job.invocation) !in w.temporaries
                          && Content(w, job.invocation.destination) == job.bound;
      && Leads(job, me, w, if writes then Finished(Some(Settled(job.root, job.invocation))) else Stop, w')
      && (writes ==>
            && w'.sources == w.sources[job.invocation.destination := job.invocation.value]
            && Temporary(job.invocation) !in w'.temporaries
            && Has(w'.files, ResultPath(job.invocation.key), EffectDoc(SealedOutcome(job.invocation))))
      && (!writes ==> w'.sources == w.sources)
  {
    w' := w;
    Here(job, me, w);
    Then(job, me, w, Begin, w, ReadMarker, w);
    Then(job, me, w, ReadMarker, w, CheckTemporary(None), w);
    if Temporary(job.invocation) in w.temporaries {
      Then(job, me, w, CheckTemporary(None), w, Stop, w);
      return;
    }
    Then(job, me, w, CheckTemporary(None), w, Admitting(None, Start), w);
    if !Fresh(job, w) {
      StaleIsRefused(job, me, w);
      return;
    }
    assert ResultOk(job.root, w, job.invocation.key);
    w' := FreshWrites(job, me, w);
  }

  lemma FreshWrites(job: Job, me: Call, w: World) returns (w': World)
    requires Fresh(job, w) && ResultPath(job.invocation.key) !in w.files && SpotOf(job.invocation) !in w.markers
    requires Temporary(job.invocation) !in w.temporaries && ValidOutcome(job.invocation, OutcomeOf(job.invocation))
    requires Leads(job, me, w, Admitting(None, Start), w)
    ensures var writes := Content(w, job.invocation.destination) == job.bound;
      && Leads(job, me, w, if writes then Finished(Some(Settled(job.root, job.invocation))) else Stop, w')
      && (writes ==>
            && w'.sources == w.sources[job.invocation.destination := job.invocation.value]
            && Temporary(job.invocation) !in w'.temporaries
            && Has(w'.files, ResultPath(job.invocation.key), EffectDoc(SealedOutcome(job.invocation))))
      && (!writes ==> w'.sources == w.sources)
  {
    var held := RunCustody(job.root, job.invocation);
    var admitted := FreshIsAdmitted(job, me, w);
    var marked := MarkerIsWritten(job, me, w, admitted, held);
    var prepared := RetryPrepares(job, me, w, marked, held);
    w' := prepared;
    if Content(w, job.invocation.destination) != job.bound {
      Then(job, me, w, CheckSources(held), prepared, Stop, prepared);
      return;
    }
    var published := RetryPublishes(job, me, w, prepared, held);
    w' := CommitFinishes(job, me, w, published, held);
  }

  // ----- nothing is written or recovered that was not checked -----

  /** The call and the job that hold the lock. */
  ghost predicate HeldBy(s: Host, call: Call, job: Job) {
    s.holder.Some? && s.holder.value.call == call && s.holder.value.job == job
  }

  /** A holder whose point changed, and who did not just arrive, is the one that stepped. */
  lemma StepOf(root: string, s: Host, s': Host) returns (current: bool)
    requires Next(root, s, s') && s'.holder.Some? && !s'.holder.value.pc.Begin? && s.holder != s'.holder
    ensures Works(s, s', current) && HeldBy(s, s'.holder.value.call, s'.holder.value.job)
  {
    if now :| Works(s, s', now) {
      current := now;
    } else if h :| Arrives(root, s, s', h) {
      assert false;
    } else if source, content :| Edits(s, s', source, content) {
      assert false;
    } else {
      assert false;
    }
  }

  lemma CheckedStep(job: Job, pc: WritePc, me: Call, w: World, current: bool)
    ensures var next := Step(job, pc, me, w, current).0;
      && (next.Publish? ==> pc.CheckSources? && current && Content(w, job.invocation.destination) == job.bound)
      && (next.RecoverCommitting? && next.sub.Start? ==>
            pc.RecoverRead? && current && Content(w, job.invocation.destination) == Some(job.invocation.value))
      && (next.Committing? && next.sub.Start? ==> (pc.Published? && current) || pc.RecoverCommitting? || pc == next)
      && (pc.Begin? && !next.Finished? ==> current && job.invocation.operation != DEFER)
      && (pc.Finished? ==> next.Finished?)
  {
  }

  /** At this position of the run the call made a step whose check succeeded. */
  ghost predicate Passed(run: seq<Host>, k: nat, call: Call, job: Job) {
    k + 1 < |run| && HeldBy(run[k], call, job) && Works(run[k], run[k + 1], true)
  }

  ghost predicate SourceIs(run: seq<Host>, k: nat, job: Job, content: Option<string>) {
    k < |run| && Content(run[k].world, job.invocation.destination) == content
  }

  lemma StartsIdle(root: string, run: seq<Host>)
    requires Run(root, run)
    ensures run[0].holder.None?
  {
  }

  /** The last step of a call that is past its first point, and what that step checked. */
  lemma StepAt(root: string, run: seq<Host>, i: nat)
    requires Run(root, run) && 0 < i < |run| && run[i].holder.Some? && run[i - 1].holder != run[i].holder
    requires !run[i].holder.value.pc.Begin?
    ensures var h := run[i].holder.value;
      && HeldBy(run[i - 1], h.call, h.job)
      && var pc := run[i - 1].holder.value.pc;
         && (h.pc.Publish? ==>
               pc.CheckSources? && Passed(run, i - 1, h.call, h.job) && SourceIs(run, i - 1, h.job, h.job.bound))
         && (h.pc.RecoverCommitting? && h.pc.sub.Start? ==>
               && pc.RecoverRead? && Passed(run, i - 1, h.call, h.job)
               && SourceIs(run, i - 1, h.job, Some(h.job.invocation.value)))
         && (h.pc.Committing? && h.pc.sub.Start? ==>
               (pc.Published? && Passed(run, i - 1, h.call, h.job)) || pc.RecoverCommitting?)
         && (!h.pc.Finished? ==> !pc.Finished? && (pc.Begin? ==> Passed(run, i - 1, h.call, h.job)))
  {
    assert Next(root, run[i - 1], run[i]);
    var current := StepOf(root, run[i - 1], run[i]);
    var h := run[i - 1].holder.value;
    CheckedStep(h.job, h.pc, h.call, run[i - 1].world, current);
  }

  /** A call about to put its bytes in place made, before, the step that revalidated and found the
      source at the content it was admitted for. */
  lemma {:induction false} WriteIsChecked(root: string, run: seq<Host>, i: nat) returns (k: nat)
    requires Run(root, run) && i < |run| && run[i].holder.Some? && run[i].holder.value.pc.Publish?
    ensures var h := run[i].holder.value;
      && k < i && Passed(run, k, h.call, h.job) && run[k].holder.value.pc.CheckSources?
      && SourceIs(run, k, h.job, h.job.bound)
  {
    StartsIdle(root, run);
    if run[i - 1].holder == run[i].holder {
      k := WriteIsChecked(root, run, i - 1);
    } else {
      StepAt(root, run, i);
      k := i - 1;
    }
  }

  /** A call about to commit an interrupted write made, before, the step that revalidated and found
      the source at the written content. */
  lemma {:induction false} RecoveryIsChecked(root: string, run: seq<Host>, i: nat) returns (k: nat)
    requires Run(root, run) && i < |run| && run[i].holder.Some?
    requires run[i].holder.value.pc.RecoverCommitting? && run[i].holder.value.pc.sub.Start?
    ensures var h := run[i].holder.value;
      && k < i && Passed(run, k, h.call, h.job) && run[k].holder.value.pc.RecoverRead?
      && SourceIs(run, k, h.job, Some(h.job.invocation.value))
  {
    StartsIdle(root, run);
    if run[i - 1].holder == run[i].holder {
      k := RecoveryIsChecked(root, run, i - 1);
    } else {
      StepAt(root, run, i);
      k := i - 1;
    }
  }

  /** A call about to commit its own result made, before, the step that observed its publication,
      or has committed the interrupted write it recovers. */
  lemma {:induction false} CommitIsChecked(root: string, run: seq<Host>, i: nat) returns (k: nat)
    requires Run(root, run) && i < |run| && run[i].holder.Some?
    requires run[i].holder.value.pc.Committing? && run[i].holder.value.pc.sub.Start?
    ensures var h := run[i].holder.value;
      && k < i && HeldBy(run[k], h.call, h.job)
      && ((run[k].holder.value.pc.Published? && Passed(run, k, h.call, h.job)) ||
          run[k].holder.value.pc.RecoverCommitting?)
  {
    StartsIdle(root, run);
    if run[i - 1].holder == run[i].holder {
      k := CommitIsChecked(root, run, i - 1);
    } else {
      StepAt(root, run, i);
      k := i - 1;
    }
  }

  /** Whatever a call does, its first revalidation succeeded. */
  lemma {:induction false} CallIsRevalidated(root: string, run: seq<Host>, i: nat) returns (k: nat)
    requires Run(root, run) && i < |run| && run[i].holder.Some?
    requires !run[i].holder.value.pc.Begin? && !run[i].holder.value.pc.Finished?
    ensures var h := run[i].holder.value;
      k < i && Passed(run, k, h.call, h.job) && run[k].holder.value.pc.Begin?
  {
    StartsIdle(root, run);
    if run[i - 1].holder == run[i].holder {
      k := CallIsRevalidated(root, run, i - 1);
    } else {
      StepAt(root, run, i);
      k := i - 1;
      if !run[k].holder.value.pc.Begin? {
        k := CallIsRevalidated(root, run, i - 1);
      }
    }
  }

  /** What a write and a recovery answer. */
  lemma OutcomeFields(invocation: Invocation)
    ensures var outcome := OutcomeOf(invocation);
      && outcome.status == "applied" && outcome.effects == ["configuration-source"]
      && (invocation.operation != "configuration.recover-write" ==> outcome.value == invocation.value)
      && (invocation.operation == "configuration.recover-write" ==> outcome.value == "recovered " + invocation.value)
  {
  }
}
