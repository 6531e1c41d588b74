/**
 What each event leaves in the rows of the meeting link, written out: who may do what, which meetings appear and go, and
 what becomes of both sides of the link and of the preparation.
 */
module MeetingRows {
  import opened Wrappers

  import opened MeetingLink

  predicate MineAudio(t: Tables, a: Id, user: string)
  {
    user != "" && a in t.audios && t.audios[a].owner == user
  }

  predicate MineMeeting(t: Tables, m: Id, user: string)
  {
    user != "" && m in t.meetings && t.meetings[m].owner == user
  }

  /** No preparation, or one of the user's that is not in the trash. */
  predicate MayUsePrep(t: Tables, prep: Option<Id>, user: string)
  {
    prep.Some? ==> prep.value in t.preps && t.preps[prep.value] == Prep(user, false)
  }

  predicate MayUseAudio(t: Tables, audio: Option<Id>, user: string)
  {
    audio.Some? ==> audio.value in t.audios && t.audios[audio.value].owner == user
  }

  /** The event makes a meeting with this row. */
  predicate Makes(t: Tables, e: Event, m: Id, row: Meeting)
  {
    match e
    case Create(user, audio, prep, job, newId) =>
      && m == newId && user != "" && MayUseAudio(t, audio, user) && MayUsePrep(t, prep, user)
      && (job.Some? ==> forall o :: o in t.meetings ==>
            !(t.meetings[o].owner == user && !t.meetings[o].trashed && t.meetings[o].job == job))
      && row == Meeting(user, audio, prep, job, false)
    case LinkAudioToPrep(file, user, prep, newId) =>
      && m == newId && MineAudio(t, file, user) && MayUsePrep(t, prep, user)
      && !(t.audios[file].meeting.Some? && MineMeeting(t, t.audios[file].meeting.value, user))
      && row == Meeting(user, Some(file), prep, None, false)
    case _ => false
  }

  /** A meeting appears exactly if the event makes it, as the event says. */
  lemma MeetingAppearsIff(t: Tables, e: Event, m: Id)
    requires Enabled(t, e) && m !in t.meetings
    ensures m in After(t, e).meetings <==> exists row :: Makes(t, e, m, row)
    ensures m in After(t, e).meetings ==> Makes(t, e, m, After(t, e).meetings[m])
  {
    if m in After(t, e).meetings {
      MadeIsNew(t, e, m);
    }
    if row :| Makes(t, e, m, row) {
      MakesAppears(t, e, m, row);
    }
  }

  lemma MadeIsNew(t: Tables, e: Event, m: Id)
    requires Enabled(t, e) && m !in t.meetings && m in After(t, e).meetings
    ensures Makes(t, e, m, After(t, e).meetings[m])
  {
    if e.Create? {
      forall o | o in t.meetings
        ensures !HasJob(t, o, e.user, e.job)
      {
      }
    }
  }

  lemma MakesAppears(t: Tables, e: Event, m: Id, row: Meeting)
    requires Enabled(t, e) && Makes(t, e, m, row)
    ensures m in After(t, e).meetings
  {
  }

  /** A meeting goes exactly when its user deletes it for good out of the trash. */
  lemma MeetingGoesIff(t: Tables, e: Event, m: Id)
    requires Enabled(t, e) && m in t.meetings
    ensures m !in After(t, e).meetings <==>
              e == HardDelete(m, t.meetings[m].owner) && t.meetings[m].owner != "" && t.meetings[m].trashed
  {
  }

  /** What an event leaves of a meeting that stays. */
  function Changed(t: Tables, e: Event, m: Id): Meeting
    requires m in t.meetings
  {
    var row := t.meetings[m];
    match e
    case LinkAudio(meeting, user, audio) =>
      if meeting == m && MineMeeting(t, m, user) && !row.trashed && MayUseAudio(t, audio, user)
      then row.(audio := audio) else row
    case LinkPrep(meeting, user, prep) =>
      if meeting == m && MineMeeting(t, m, user) && !row.trashed && MayUsePrep(t, prep, user)
      then row.(prep := prep) else row
    case LinkAudioToPrep(file, user, prep, _) =>
      if MineAudio(t, file, user) && t.audios[file].meeting == Some(m) && MineMeeting(t, m, user)
         && MayUsePrep(t, prep, user) then row.(prep := prep) else row
    case Trash(meeting, user) => if meeting == m && MineMeeting(t, m, user) then row.(trashed := true) else row
    case Restore(meeting, user) => if meeting == m && MineMeeting(t, m, user) then row.(trashed := false) else row
    case DeleteAudio(file) => if row.audio == Some(file) then row.(audio := None) else row
    case DeletePrep(id) => if row.prep == Some(id) then row.(prep := None) else row
    case _ => row
  }

  lemma MeetingAfter(t: Tables, e: Event, m: Id)
    requires Enabled(t, e) && m in t.meetings && m in After(t, e).meetings
    ensures After(t, e).meetings[m] == Changed(t, e, m)
  {
    if e.LinkAudio? {
      hide SomeHasJob;
    }
  }

  lemma AudioStays(t: Tables, e: Event, a: Id)
    requires Enabled(t, e) && a in t.audios
    ensures a in After(t, e).audios <==> e != DeleteAudio(a)
    ensures e != DeleteAudio(a) ==> After(t, e).audios[a].owner == t.audios[a].owner
  {
    hide SomeHasJob, OwnPrep, OwnMeeting;
  }

  lemma LinkedAudioAfter(t: Tables, e: Event, a: Id)
    requires e.LinkAudio? && a in t.audios && a in After(t, e).audios
    ensures After(t, e).audios[a].meeting == PointsAt(t, e, a)
  {
    hide SomeHasJob, OwnPrep;
  }

  lemma OtherAudioAfter(t: Tables, e: Event, a: Id)
    requires Enabled(t, e) && !e.LinkAudio? && a in t.audios && a in After(t, e).audios
    ensures After(t, e).audios[a].meeting == PointsAt(t, e, a)
  {
    hide Detach, Links;
  }

  /** An audio file points at the meeting it is given to, at none if that goes, and else where it did. */
  lemma AudioAfter(t: Tables, e: Event, a: Id)
    requires Enabled(t, e) && a in t.audios
    ensures a in After(t, e).audios <==> e != DeleteAudio(a)
    ensures e != DeleteAudio(a) ==>
              && After(t, e).audios[a].owner == t.audios[a].owner
              && After(t, e).audios[a].meeting == PointsAt(t, e, a)
  {
    hide After, PointsAt, Enabled;
    AudioStays(t, e, a);
    if e != DeleteAudio(a) {
      if e.LinkAudio? {
        LinkedAudioAfter(t, e, a);
      } else {
        OtherAudioAfter(t, e, a);
      }
    }
  }

  function PointsAt(t: Tables, e: Event, a: Id): Option<Id>
    requires a in t.audios
  {
    var was := t.audios[a].meeting;
    match e
    case Create(user, audio, prep, job, newId) =>
      if audio == Some(a) && Makes(t, e, newId, Meeting(user, audio, prep, job, false)) then Some(newId) else was
    case LinkAudio(m, user, audio) =>
      if MineMeeting(t, m, user) && !t.meetings[m].trashed && MayUseAudio(t, audio, user) then
        if audio == Some(a) then Some(m)
        else if t.meetings[m].audio == Some(a) && was == Some(m) && t.audios[a].owner == user then None else was
      else was
    case LinkAudioToPrep(file, user, prep, newId) =>
      if file == a && Makes(t, e, newId, Meeting(user, Some(file), prep, None, false)) then Some(newId) else was
    case HardDelete(m, user) =>
      if MineMeeting(t, m, user) && t.meetings[m].trashed && was == Some(m) then None else was
    case _ => was
  }

  /** Audio files and preparations come and go one at a time. */
  lemma OtherRowsAfter(t: Tables, e: Event, x: Id)
    requires Enabled(t, e)
    ensures x !in t.audios ==>
              (x in After(t, e).audios <==> e.AddAudio? && e.file == x)
              && (x in After(t, e).audios ==> After(t, e).audios[x] == Audio(e.user, None))
    ensures x in After(t, e).preps <==> (x in t.preps && e != DeletePrep(x)) || (e.PutPrep? && e.prepId == x)
    ensures x in After(t, e).preps ==>
              After(t, e).preps[x] == if e.PutPrep? && e.prepId == x then e.row else t.preps[x]
  {
  }
}
