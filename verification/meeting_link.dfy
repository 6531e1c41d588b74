/**
 The link between audio files and meetings in the trust authority (`main.py`). It is stored twice, as
 `audio.meeting_id` and as `meeting.user_audio_file_id`; deleting a row sets the references to it to NULL.
 Each handler is one committed transaction.
 */
module MeetingLink {
  import opened Wrappers

  type Id = int

  datatype Audio = Audio(owner: string, meeting: Option<Id>)

  datatype Meeting = Meeting(owner: string, audio: Option<Id>, prep: Option<Id>, job: Option<int>, trashed: bool)

  datatype Prep = Prep(owner: string, trashed: bool)

  datatype Tables = Tables(audios: map<Id, Audio>, meetings: map<Id, Meeting>, preps: map<Id, Prep>)

  datatype Error = UserRequired | AudioNotFound | PreparationNotFound | NotFound | NotInTrash

  datatype Answer = Created(meeting: Id) | Reused(meeting: Id) | Linked(meeting: Id, previous: Option<Id>) | Changed

  type Reply = Result<Answer, Error>

  predicate OwnAudio(t: Tables, audio: Option<Id>, user: string)
  {
    audio.None? || (audio.value in t.audios && t.audios[audio.value].owner == user)
  }

  predicate OwnPrep(t: Tables, prep: Option<Id>, user: string)
  {
    prep.None? || (prep.value in t.preps && t.preps[prep.value].owner == user && !t.preps[prep.value].trashed)
  }

  predicate OwnMeeting(t: Tables, meeting: Id, user: string, trashed: bool)
  {
    meeting in t.meetings && t.meetings[meeting].owner == user && t.meetings[meeting].trashed == trashed
  }

  /** The live meeting a video job already has. */
  predicate HasJob(t: Tables, meeting: Id, user: string, job: Option<int>)
  {
    OwnMeeting(t, meeting, user, false) && job.Some? && t.meetings[meeting].job == job
  }

  predicate SomeHasJob(t: Tables, user: string, job: Option<int>)
  {
    exists m :: m in t.meetings && HasJob(t, m, user, job)
  }

  function Point(t: Tables, audio: Id, meeting: Option<Id>): Tables
    requires audio in t.audios
  {
    t.(audios := t.audios[audio := t.audios[audio].(meeting := meeting)])
  }

  // ---- The handlers ---------------------------------------------------------------------------------

  /** `newId` is the identifier a created meeting gets. */
  datatype Event =
    | Create(user: string, audio: Option<Id>, prep: Option<Id>, job: Option<int>, newId: Id)
    | LinkAudio(meeting: Id, user: string, audio: Option<Id>)
    | LinkPrep(meeting: Id, user: string, prep: Option<Id>)
    | LinkAudioToPrep(file: Id, user: string, prep: Option<Id>, newId: Id)
    | Trash(meeting: Id, user: string)
    | Restore(meeting: Id, user: string)
    | HardDelete(meeting: Id, user: string)
    | AddAudio(file: Id, user: string)
    | DeleteAudio(file: Id)
    | PutPrep(prepId: Id, row: Prep)
    | DeletePrep(prepId: Id)

  /** create_meeting adds a row. */
  predicate Creates(t: Tables, user: string, audio: Option<Id>, prep: Option<Id>, job: Option<int>)
  {
    user != "" && OwnAudio(t, audio, user) && OwnPrep(t, prep, user) && !SomeHasJob(t, user, job)
  }

  /** link_meeting_to_audio goes through. */
  predicate Links(t: Tables, meeting: Id, user: string, audio: Option<Id>)
  {
    user != "" && OwnMeeting(t, meeting, user, false) && OwnAudio(t, audio, user)
  }

  predicate LinksFile(t: Tables, file: Id, user: string, prep: Option<Id>)
  {
    user != "" && OwnAudio(t, Some(file), user) && OwnPrep(t, prep, user)
  }

  /** The meeting link_audio_to_preparation finds for an audio file, if any. */
  function MeetingOf(t: Tables, file: Id, user: string): Option<Id>
    requires file in t.audios
  {
    var m := t.audios[file].meeting;
    if m.Some? && m.value in t.meetings && t.meetings[m.value].owner == user then m else None
  }

  function SetMeeting(t: Tables, id: Id, row: Meeting): Tables
  {
    t.(meetings := t.meetings[id := row])
  }

  function Attach(t: Tables, audio: Option<Id>, meeting: Id): Tables
  {
    if audio.Some? && audio.value in t.audios then Point(t, audio.value, Some(meeting)) else t
  }

  /** The old audio of a meeting loses its link, if it still points back. */
  function Detach(t: Tables, meeting: Id, user: string): Tables
    requires meeting in t.meetings
  {
    var prev := t.meetings[meeting].audio;
    if prev.Some? && prev.value in t.audios && t.audios[prev.value] == Audio(user, Some(meeting))
      then Point(t, prev.value, None) else t
  }

  /** The tables a committed transaction leaves. */
  function After(t: Tables, e: Event): Tables
  {
    match e
    case Create(user, audio, prep, job, newId) =>
      if Creates(t, user, audio, prep, job)
      then Attach(SetMeeting(t, newId, Meeting(user, audio, prep, job, false)), audio, newId) else t
    case LinkAudio(meeting, user, audio) =>
      if Links(t, meeting, user, audio)
      then Attach(SetMeeting(Detach(t, meeting, user), meeting, t.meetings[meeting].(audio := audio)), audio, meeting)
        else t
    case LinkPrep(meeting, user, prep) =>
      if user != "" && OwnMeeting(t, meeting, user, false) && OwnPrep(t, prep, user)
      then SetMeeting(t, meeting, t.meetings[meeting].(prep := prep)) else t
    case LinkAudioToPrep(file, user, prep, newId) =>
      if !LinksFile(t, file, user, prep) then t
      else
        (match MeetingOf(t, file, user)
         case Some(m) => SetMeeting(t, m, t.meetings[m].(prep := prep))
         case None => Attach(SetMeeting(t, newId, Meeting(user, Some(file), prep, None, false)), Some(file), newId))
    case Trash(meeting, user) =>
      if user != "" && OwnMeeting(t, meeting, user, false)
        then SetMeeting(t, meeting, t.meetings[meeting].(trashed := true)) else t
    case Restore(meeting, user) =>
      if user != "" && OwnMeeting(t, meeting, user, true)
        then SetMeeting(t, meeting, t.meetings[meeting].(trashed := false)) else t
    case HardDelete(meeting, user) =>
      if user != "" && OwnMeeting(t, meeting, user, true) then WithoutMeeting(t, meeting) else t
    case AddAudio(file, user) => t.(audios := t.audios[file := Audio(user, None)])
    case DeleteAudio(file) => WithoutAudio(t, file)
    case PutPrep(prepId, row) => t.(preps := t.preps[prepId := row])
    case DeletePrep(prepId) => WithoutPrep(t, prepId)
  }

  /** Deletions, with ON DELETE SET NULL on every reference. */
  function WithoutMeeting(t: Tables, id: Id): Tables
  {
    t.(meetings := map m | m in t.meetings && m != id :: t.meetings[m],
       audios := map a | a in t.audios ::
         if t.audios[a].meeting == Some(id) then t.audios[a].(meeting := None) else t.audios[a])
  }

  function WithoutAudio(t: Tables, id: Id): Tables
  {
    t.(audios := map a | a in t.audios && a != id :: t.audios[a],
       meetings := map m | m in t.meetings ::
         if t.meetings[m].audio == Some(id) then t.meetings[m].(audio := None) else t.meetings[m])
  }

  function WithoutPrep(t: Tables, id: Id): Tables
  {
    t.(preps := map p | p in t.preps && p != id :: t.preps[p],
       meetings := map m | m in t.meetings ::
         if t.meetings[m].prep == Some(id) then t.meetings[m].(prep := None) else t.meetings[m])
  }

  /** New rows get new identifiers, and no row changes owner. */
  predicate Enabled(t: Tables, e: Event)
  {
    match e
    case Create(_, _, _, _, newId) => newId !in t.meetings
    case LinkAudioToPrep(_, _, _, newId) => newId !in t.meetings
    case AddAudio(file, _) => file !in t.audios
    case PutPrep(prepId, row) => prepId in t.preps ==> t.preps[prepId].owner == row.owner
    case _ => true
  }

  class Registry {
    var audios: map<Id, Audio>
    var meetings: map<Id, Meeting>
    var preps: map<Id, Prep>

    function Now(): Tables
      reads this
    {
      Tables(audios, meetings, preps)
    }

    method CreateMeeting(user: string, audio: Option<Id>, prep: Option<Id>, job: Option<int>, newId: Id)
        returns (reply: Reply)
      requires newId !in meetings
      modifies this
      ensures Now() == After(old(Now()), Create(user, audio, prep, job, newId))
      ensures reply == Ok(Created(newId)) <==> Creates(old(Now()), user, audio, prep, job)
      ensures reply.Ok? && reply.value.Reused? ==> HasJob(old(Now()), reply.value.meeting, user, job)
      ensures reply.Ok? ==> reply.value.Created? || reply.value.Reused?
    {
      if user == "" {
        return Err(UserRequired);
      }
      if !OwnAudio(Now(), audio, user) {
        return Err(AudioNotFound);
      }
      if !OwnPrep(Now(), prep, user) {
        return Err(PreparationNotFound);
      }
      if m :| m in meetings && HasJob(Now(), m, user, job) {
        return Ok(Reused(m));
      }
      meetings := meetings[newId := Meeting(user, audio, prep, job, false)];
      if audio.Some? {
        audios := audios[audio.value := audios[audio.value].(meeting := Some(newId))];
      }
      reply := Ok(Created(newId));
    }

    method LinkMeetingToAudio(meeting: Id, user: string, audio: Option<Id>) returns (reply: Reply)
      modifies this
      ensures Now() == After(old(Now()), LinkAudio(meeting, user, audio))
      ensures if Links(old(Now()), meeting, user, audio)
              then reply == Ok(Linked(meeting, old(Now()).meetings[meeting].audio)) else reply.Err?
    {
      if user == "" {
        return Err(UserRequired);
      }
      if !OwnMeeting(Now(), meeting, user, false) {
        return Err(NotFound);
      }
      if !OwnAudio(Now(), audio, user) {
        return Err(AudioNotFound);
      }
      var prev := meetings[meeting].audio;
      if prev.Some? && prev.value in audios && audios[prev.value].owner == user
        && audios[prev.value].meeting == Some(meeting) {
        audios := audios[prev.value := audios[prev.value].(meeting := None)];
      }
      meetings := meetings[meeting := meetings[meeting].(audio := audio)];
      if audio.Some? {
        audios := audios[audio.value := audios[audio.value].(meeting := Some(meeting))];
      }
      reply := Ok(Linked(meeting, prev));
    }

    method LinkMeetingToPreparation(meeting: Id, user: string, prep: Option<Id>) returns (reply: Reply)
      modifies this
      ensures Now() == After(old(Now()), LinkPrep(meeting, user, prep))
      ensures reply.Ok? <==>
              user != "" && OwnMeeting(old(Now()), meeting, user, false) && OwnPrep(old(Now()), prep, user)
    {
      if user == "" {
        return Err(UserRequired);
      }
      if !OwnMeeting(Now(), meeting, user, false) {
        return Err(NotFound);
      }
      if !OwnPrep(Now(), prep, user) {
        return Err(PreparationNotFound);
      }
      var prev := meetings[meeting].prep;
      meetings := meetings[meeting := meetings[meeting].(prep := prep)];
      reply := Ok(Linked(meeting, prev));
    }

    method LinkAudioToPreparation(file: Id, user: string, prep: Option<Id>, newId: Id) returns (reply: Reply)
      requires newId !in meetings
      modifies this
      ensures Now() == After(old(Now()), LinkAudioToPrep(file, user, prep, newId))
      ensures reply.Ok? <==> LinksFile(old(Now()), file, user, prep)
    {
      if user == "" {
        return Err(UserRequired);
      }
      if !OwnAudio(Now(), Some(file), user) {
        return Err(NotFound);
      }
      if !OwnPrep(Now(), prep, user) {
        return Err(PreparationNotFound);
      }
      var found := MeetingOf(Now(), file, user);
      var m := newId;
      if found.Some? {
        m := found.value;
      } else {
        meetings := meetings[m := Meeting(user, Some(file), None, None, false)];
        audios := audios[file := audios[file].(meeting := Some(m))];
      }
      var prev := meetings[m].prep;
      ghost var before := meetings;
      meetings := meetings[m := meetings[m].(prep := prep)];
      assert found.None? ==> meetings == old(meetings)[m := Meeting(user, Some(file), prep, None, false)];
      reply := Ok(Linked(m, prev));
    }

    /** Both ways: into the trash and out of it. */
    method SetTrashed(meeting: Id, user: string, trashed: bool) returns (reply: Reply)
      modifies this`meetings
      ensures Now() == After(old(Now()), if trashed then Trash(meeting, user) else Restore(meeting, user))
      ensures reply.Ok? <==> user != "" && OwnMeeting(old(Now()), meeting, user, !trashed)
    {
      if user == "" {
        return Err(UserRequired);
      }
      if !OwnMeeting(Now(), meeting, user, !trashed) {
        return Err(if trashed then NotFound else NotInTrash);
      }
      meetings := meetings[meeting := meetings[meeting].(trashed := trashed)];
      reply := Ok(Changed);
    }

    method HardDeleteMeeting(meeting: Id, user: string) returns (reply: Reply)
      modifies this
      ensures Now() == After(old(Now()), HardDelete(meeting, user))
      ensures reply.Ok? <==> user != "" && OwnMeeting(old(Now()), meeting, user, true)
    {
      if user == "" {
        return Err(UserRequired);
      }
      if !OwnMeeting(Now(), meeting, user, true) {
        return Err(NotInTrash);
      }
      audios := map a | a in audios ::
        if audios[a].meeting == Some(meeting) then audios[a].(meeting := None) else audios[a];
      meetings := map m | m in meetings && m != meeting :: meetings[m];
      reply := Ok(Changed);
    }
  }

  // ---- Theorems -------------------------------------------------------------------------------------

  /** The audio's link is mirrored by its meeting, which has the same owner. */
  predicate AudioOk(t: Tables, a: Id)
    requires a in t.audios
  {
    var m := t.audios[a].meeting;
    m.Some? ==>
      m.value in t.meetings && t.meetings[m.value].audio == Some(a) && t.meetings[m.value].owner == t.audios[a].owner
  }

  /** A meeting refers to existing rows of its owner. */
  predicate MeetingOk(t: Tables, m: Id)
    requires m in t.meetings
  {
    AudioRefOk(t, t.meetings[m]) && PrepRefOk(t, t.meetings[m])
  }

  predicate AudioRefOk(t: Tables, row: Meeting)
  {
    row.audio.Some? ==> row.audio.value in t.audios && t.audios[row.audio.value].owner == row.owner
  }

  predicate PrepRefOk(t: Tables, row: Meeting)
  {
    row.prep.Some? ==> row.prep.value in t.preps && t.preps[row.prep.value].owner == row.owner
  }

  predicate Inv(t: Tables)
  {
    (forall a :: a in t.audios ==> AudioOk(t, a)) && (forall m :: m in t.meetings ==> MeetingOk(t, m))
  }

  lemma LinkingKeepsAudioOk(t: Tables, e: Event, a: Id)
    requires (a in t.audios ==> AudioOk(t, a)) && e.LinkAudio? && a in After(t, e).audios
    ensures AudioOk(After(t, e), a)
  {
  }

  lemma AudioStaysOk(t: Tables, e: Event, a: Id)
    requires (a in t.audios ==> AudioOk(t, a)) && Enabled(t, e) && a in After(t, e).audios
    ensures AudioOk(After(t, e), a)
  {
    if e.LinkAudio? {
      hide After, AudioOk;
      LinkingKeepsAudioOk(t, e, a);
    } else {
      hide Detach, Links, SomeHasJob, OwnPrep;
    }
  }

  lemma LinkingKeepsAudioRefOk(t: Tables, e: Event, m: Id)
    requires (m in t.meetings ==> AudioRefOk(t, t.meetings[m])) && (e.LinkAudio? || e.LinkAudioToPrep?)
    requires Enabled(t, e) && m in After(t, e).meetings
    ensures AudioRefOk(After(t, e), After(t, e).meetings[m])
  {
    hide SomeHasJob, OwnPrep;
  }

  lemma AudioRefStaysOk(t: Tables, e: Event, m: Id)
    requires (m in t.meetings ==> AudioRefOk(t, t.meetings[m])) && Enabled(t, e) && m in After(t, e).meetings
    ensures AudioRefOk(After(t, e), After(t, e).meetings[m])
  {
    if e.LinkAudio? || e.LinkAudioToPrep? {
      hide After, AudioRefOk;
      LinkingKeepsAudioRefOk(t, e, m);
    } else {
      hide SomeHasJob, OwnPrep, Detach, Links, LinksFile;
    }
  }

  lemma PrepRefStaysOk(t: Tables, e: Event, m: Id)
    requires (m in t.meetings ==> PrepRefOk(t, t.meetings[m])) && Enabled(t, e) && m in After(t, e).meetings
    ensures PrepRefOk(After(t, e), After(t, e).meetings[m])
  {
    hide SomeHasJob, OwnAudio;
  }

  lemma MeetingStaysOk(t: Tables, e: Event, m: Id)
    requires Inv(t) && Enabled(t, e) && m in After(t, e).meetings
    ensures MeetingOk(After(t, e), m)
  {
    hide After, AudioRefOk, PrepRefOk, Enabled;
    assert m in t.meetings ==> MeetingOk(t, m);
    AudioRefStaysOk(t, e, m);
    PrepRefStaysOk(t, e, m);
  }

  lemma StepKeepsInv(t: Tables, e: Event)
    requires Inv(t) && Enabled(t, e)
    ensures Inv(After(t, e))
  {
    hide After, AudioOk, MeetingOk, Enabled;
    forall a | a in After(t, e).audios
      ensures AudioOk(After(t, e), a)
    {
      AudioStaysOk(t, e, a);
    }
    forall m | m in After(t, e).meetings
      ensures MeetingOk(After(t, e), m)
    {
      MeetingStaysOk(t, e, m);
    }
  }

  function Run(events: seq<Event>): Tables
  {
    if events == [] then Tables(map[], map[], map[]) else After(Run(events[..|events| - 1]), events[|events| - 1])
  }

  predicate IsRun(events: seq<Event>)
  {
    events == [] || (IsRun(events[..|events| - 1]) && Enabled(Run(events[..|events| - 1]), events[|events| - 1]))
  }

  lemma {:induction false} RunKeepsInv(events: seq<Event>)
    requires IsRun(events)
    ensures Inv(Run(events))
  {
    hide After, Enabled;
    if events != [] {
      RunKeepsInv(events[..|events| - 1]);
      StepKeepsInv(Run(events[..|events| - 1]), events[|events| - 1]);
    }
  }

  /** Over every run, no two audio files point at one meeting. */
  lemma NoSharedMeeting(events: seq<Event>, a: Id, b: Id)
    requires IsRun(events)
    requires a in Run(events).audios && b in Run(events).audios
    requires Run(events).audios[a].meeting.Some? && Run(events).audios[a].meeting == Run(events).audios[b].meeting
    ensures a == b
  {
    hide IsRun, Run;
    RunKeepsInv(events);
    assert AudioOk(Run(events), a) && AudioOk(Run(events), b);
  }

  /** The converse link: the audio of a meeting points back at it. */
  predicate MirroredAt(t: Tables, m: Id)
    requires m in t.meetings
  {
    var a := t.meetings[m].audio;
    a.Some? && a.value in t.audios ==> t.audios[a.value].meeting == Some(m)
  }

  predicate Mirrored(t: Tables)
  {
    forall m :: m in t.meetings ==> MirroredAt(t, m)
  }

  /** The event gives an audio file that already has a meeting to another one. */
  predicate Steals(t: Tables, e: Event)
  {
    match e
    case Create(user, audio, prep, job, _) =>
      Creates(t, user, audio, prep, job) && audio.Some? && t.audios[audio.value].meeting.Some?
    case LinkAudio(meeting, user, audio) =>
      Links(t, meeting, user, audio) && audio.Some? && t.audios[audio.value].meeting.Some?
        && t.audios[audio.value].meeting.value != meeting
    case _ => false
  }

  lemma MirrorStays(t: Tables, e: Event, m: Id)
    requires Inv(t) && Mirrored(t) && Enabled(t, e) && !Steals(t, e) && m in After(t, e).meetings
    ensures MirroredAt(After(t, e), m)
  {
    hide SomeHasJob, OwnPrep;
    assert m in t.meetings ==> MeetingOk(t, m) && MirroredAt(t, m);
    var a := After(t, e).meetings[m].audio;
    assert a.Some? && a.value in t.audios ==> AudioOk(t, a.value);
  }

  lemma StealingBreaks(t: Tables, e: Event)
    requires Inv(t) && Enabled(t, e) && Steals(t, e)
    ensures var m := t.audios[e.audio.value].meeting.value; m in After(t, e).meetings && !MirroredAt(After(t, e), m)
  {
    assert AudioOk(t, e.audio.value);
  }

  /**
   The two sides of the link keep mirroring each other exactly until an audio file that has a meeting is given to
   another.
   */
  lemma MirroredIff(t: Tables, e: Event)
    requires Inv(t) && Mirrored(t) && Enabled(t, e)
    ensures Mirrored(After(t, e)) <==> !Steals(t, e)
  {
    hide After, MirroredAt, Inv, Enabled;
    if Steals(t, e) {
      StealingBreaks(t, e);
    } else {
      forall m | m in After(t, e).meetings
        ensures MirroredAt(After(t, e), m)
      {
        MirrorStays(t, e, m);
      }
    }
  }

  /** It happens: two meetings made for one audio file both name it, and it names the second. */
  lemma MirrorCanBreak(user: string)
    requires user != ""
    ensures
      var run := [AddAudio(1, user), Create(user, Some(1), None, None, 1), Create(user, Some(1), None, None, 2)];
      && IsRun(run) && !Mirrored(Run(run)) && Run(run).meetings.Keys == {1, 2}
      && Run(run).meetings[1].audio == Run(run).meetings[2].audio == Some(1)
      && Run(run).audios == map[1 := Audio(user, Some(2))]
  {
    var a, b, c := AddAudio(1, user), Create(user, Some(1), None, None, 1), Create(user, Some(1), None, None, 2);
    var r0: seq<Event> := [];
    var r1, r2, r3 := [a], [a, b], [a, b, c];
    assert r1[..0] == r0 && r2[..1] == r1 && r3[..2] == r2;
    assert Run(r1) == Tables(map[1 := Audio(user, None)], map[], map[]);
    var first := Meeting(user, Some(1), None, None, false);
    assert Run(r2) == Tables(map[1 := Audio(user, Some(1))], map[1 := first], map[]);
    assert Run(r3) == Tables(map[1 := Audio(user, Some(2))], map[1 := first, 2 := first], map[]);
    assert IsRun(r0) && IsRun(r1) && IsRun(r2);
    assert !MirroredAt(Run(r3), 1);
  }

  /** Asking again for the meeting of a video job changes nothing. */
  lemma CreateIsIdempotent(t: Tables, e: Event, again: Event)
    requires e.Create? && again.Create? && e.job.Some? && again.job == e.job && again.user == e.user
    requires Creates(t, e.user, e.audio, e.prep, e.job)
    ensures After(After(t, e), again) == After(t, e)
  {
    assert HasJob(After(t, e), e.newId, e.user, e.job);
  }

  /** The meeting made for an audio file is found again the next time. */
  lemma LinkToPrepIsReused(t: Tables, e: Event, again: Event)
    requires Inv(t) && e.LinkAudioToPrep? && again.LinkAudioToPrep? && again.file == e.file && again.user == e.user
    requires LinksFile(t, e.file, e.user, e.prep) && e.newId !in t.meetings
    ensures MeetingOf(After(t, e), e.file, e.user).Some?
    ensures After(After(t, e), again).meetings.Keys == After(t, e).meetings.Keys
  {
    assert AudioOk(t, e.file);
  }
}
