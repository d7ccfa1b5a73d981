/** The document store the route handlers talk to: users and jobs keyed by
    id, applications and chat messages in the collection's natural order.
    A save validates the document, runs its pre-save hook and then writes
    it: a new document is inserted, an existing one replaced by id. The
    unique index on (job, candidate) is enforced on every write. */
module Store {
  import opened Common
  import opened JobModel
  import opened ApplicationModel
  import opened ChatModel

  predicate JobsInvariant(jobs: map<Id, JobRecord>) {
    forall k :: k in jobs ==> jobs[k].id == k && ValidJob(jobs[k])
  }

  predicate UsersInvariant(users: map<Id, User>) {
    forall k :: k in users ==> users[k].id == k
  }

  predicate SamePair(a: ApplicationRecord, b: ApplicationRecord) {
    a.job == b.job && a.candidate == b.candidate
  }

  /** Every stored application passes validation; ids are distinct, and so
      is every (job, candidate) pair. */
  predicate ApplicationsInvariant(apps: seq<ApplicationRecord>) {
    && (forall i :: 0 <= i < |apps| ==> ValidApplication(apps[i]))
    && (forall i, j :: 0 <= i < j < |apps| ==> apps[i].id != apps[j].id && !SamePair(apps[i], apps[j]))
  }

  /** Every stored message passes validation, ids are distinct and no
      message holds two read markers for one user. */
  predicate ChatsInvariant(chats: seq<ChatRecord>) {
    && (forall i :: 0 <= i < |chats| ==> ValidChat(chats[i]) && DistinctReaders(chats[i].isRead))
    && (forall i, j :: 0 <= i < j < |chats| ==> chats[i].id != chats[j].id)
  }

  // ---------------------------------------------------------------------
  // Lookups

  /** `findById(id)` on a collection whose records carry their id as
      `idOf`: the position of the first record holding `id`. */
  function FindById<T>(s: seq<T>, idOf: T -> Id, id: Id): (r: Option<nat>)
    ensures r.Some? ==> r.value < |s| && idOf(s[r.value]) == id
    ensures r.None? <==> forall i :: 0 <= i < |s| ==> idOf(s[i]) != id
  {
    if s == [] then None
    else if idOf(s[0]) == id then Some(0)
    else
      match FindById(s[1..], idOf, id)
      case None => None
      case Some(k) => Some(k + 1)
  }

  function ApplicationId(a: ApplicationRecord): Id {
    a.id
  }

  function ChatId(m: ChatRecord): Id {
    m.id
  }

  /** `Application.findById(id)`: the position of the application. */
  function FindApplication(apps: seq<ApplicationRecord>, id: Id): (r: Option<nat>)
    ensures r.Some? ==> r.value < |apps| && apps[r.value].id == id
    ensures r.None? <==> forall i :: 0 <= i < |apps| ==> apps[i].id != id
  {
    var r := FindById(apps, ApplicationId, id);
    assert forall i :: 0 <= i < |apps| ==> ApplicationId(apps[i]) == apps[i].id;
    r
  }

  /** `Chat.findById(id)`: the position of the message. */
  function FindChat(chats: seq<ChatRecord>, id: Id): (r: Option<nat>)
    ensures r.Some? ==> r.value < |chats| && chats[r.value].id == id
    ensures r.None? <==> forall i :: 0 <= i < |chats| ==> chats[i].id != id
  {
    var r := FindById(chats, ChatId, id);
    assert forall i :: 0 <= i < |chats| ==> ChatId(chats[i]) == chats[i].id;
    r
  }

  /** `Application.findOne({ job, candidate })` finds something. */
  function HasApplied(apps: seq<ApplicationRecord>, job: Id, candidate: Id): (r: bool)
    ensures r <==> exists i :: 0 <= i < |apps| && apps[i].job == job && apps[i].candidate == candidate
  {
    if apps == [] then false
    else (apps[0].job == job && apps[0].candidate == candidate) || HasApplied(apps[1..], job, candidate)
  }

  /** With distinct ids, the position found is the only one holding `id`. */
  lemma FindApplicationUnique(apps: seq<ApplicationRecord>, id: Id, j: nat)
    requires ApplicationsInvariant(apps)
    requires j < |apps| && apps[j].id == id
    ensures FindApplication(apps, id) == Some(j)
  {
    var i := FindApplication(apps, id).value;
    assert !(i < j) && !(j < i);
  }

  lemma FindChatUnique(chats: seq<ChatRecord>, id: Id, j: nat)
    requires ChatsInvariant(chats)
    requires j < |chats| && chats[j].id == id
    ensures FindChat(chats, id) == Some(j)
  {
    var i := FindChat(chats, id).value;
    assert !(i < j) && !(j < i);
  }

  // ---------------------------------------------------------------------
  // Saves, as functions of the collection

  /** Some application other than the one at `i` holds the pair of `r`. */
  predicate PairTakenElsewhere(apps: seq<ApplicationRecord>, i: nat, r: ApplicationRecord) {
    exists j :: 0 <= j < |apps| && j != i && SamePair(apps[j], r)
  }

  /** The application after its pre-save hook. */
  function ApplicationPreSaved(r: ApplicationRecord, isNew: bool, now: int): ApplicationRecord {
    if isNew then Submitted(r, now) else r
  }

  /** The collection after `save()` of a document holding `r`; None when
      validation fails, when the id is taken (insert) or missing (replace),
      or when the unique index refuses the pair. */
  function ApplicationsAfterSave(apps: seq<ApplicationRecord>, r: ApplicationRecord, isNew: bool, now: int)
    : (w: Option<seq<ApplicationRecord>>)
    ensures w.Some? ==> ValidApplication(r)
    ensures w.Some? && isNew ==> w.value == apps + [Submitted(r, now)]
    ensures w.Some? && !isNew ==> |w.value| == |apps| && FindApplication(apps, r.id).Some?
                                  && w.value == apps[FindApplication(apps, r.id).value := r]
  {
    var saved := ApplicationPreSaved(r, isNew, now);
    if !ValidApplication(r) then None
    else if isNew then
      if FindApplication(apps, r.id).Some? || HasApplied(apps, r.job, r.candidate) then None
      else Some(apps + [saved])
    else
      match FindApplication(apps, r.id)
      case None => None
      case Some(i) => if PairTakenElsewhere(apps, i, saved) then None else Some(apps[i := saved])
  }

  function ChatPreSaved(m: ChatRecord, isNew: bool, now: int): ChatRecord {
    if isNew then WithSenderMarker(m, now) else m
  }

  /** The collection after `save()` of a message document holding `m`. */
  function ChatsAfterSave(chats: seq<ChatRecord>, m: ChatRecord, isNew: bool, now: int): (w: Option<seq<ChatRecord>>)
    ensures w.Some? ==> ValidChat(m)
    ensures w.Some? && isNew ==> w.value == chats + [WithSenderMarker(m, now)]
    ensures w.Some? && !isNew ==> |w.value| == |chats| && FindChat(chats, m.id).Some?
                                  && w.value == chats[FindChat(chats, m.id).value := m]
  {
    var saved := ChatPreSaved(m, isNew, now);
    if !ValidChat(m) then None
    else if isNew then
      if FindChat(chats, m.id).Some? then None else Some(chats + [saved])
    else
      match FindChat(chats, m.id)
      case None => None
      case Some(i) => Some(chats[i := saved])
  }

  /** The jobs after `save()` of a job document holding `j`. */
  function JobsAfterSave(jobs: map<Id, JobRecord>, j: JobRecord, isNew: bool): Option<map<Id, JobRecord>> {
    if !ValidJob(j) then None
    else if isNew == (j.id in jobs) then None
    else Some(jobs[j.id := j])
  }

  /** A successful application save keeps the collection's invariant: the
      saved record is valid and neither its id nor its pair is duplicated. */
  lemma ApplicationSaveKeepsInvariant(apps: seq<ApplicationRecord>, r: ApplicationRecord, isNew: bool, now: int)
    requires ApplicationsInvariant(apps)
    ensures var w := ApplicationsAfterSave(apps, r, isNew, now);
      w.Some? ==> ApplicationsInvariant(w.value) && |w.value| == |apps| + (if isNew then 1 else 0)
  {
    var w := ApplicationsAfterSave(apps, r, isNew, now);
    if w.Some? {
      var saved := ApplicationPreSaved(r, isNew, now);
      assert ValidApplication(saved);
      if !isNew {
        var i := FindApplication(apps, r.id).value;
        assert !PairTakenElsewhere(apps, i, saved);
        forall a, b | 0 <= a < b < |w.value|
          ensures w.value[a].id != w.value[b].id && !SamePair(w.value[a], w.value[b])
        {
          if a == i {
            assert !SamePair(apps[b], saved);
          } else if b == i {
            assert !SamePair(apps[a], saved);
          }
        }
      }
    }
  }

  lemma ChatSaveKeepsInvariant(chats: seq<ChatRecord>, m: ChatRecord, isNew: bool, now: int)
    requires ChatsInvariant(chats)
    requires DistinctReaders(m.isRead)
    requires isNew ==> !ReadBy(m.isRead, m.senderId)
    ensures var w := ChatsAfterSave(chats, m, isNew, now);
      w.Some? ==> ChatsInvariant(w.value) && |w.value| == |chats| + (if isNew then 1 else 0)
  {
    var saved := ChatPreSaved(m, isNew, now);
    if isNew {
      forall i, j | 0 <= i < j < |saved.isRead|
        ensures saved.isRead[i].userId != saved.isRead[j].userId
      {
        if j == |m.isRead| {
          assert saved.isRead[i] == m.isRead[i];
        }
      }
    }
  }

  lemma JobSaveKeepsInvariant(jobs: map<Id, JobRecord>, j: JobRecord, isNew: bool)
    requires JobsInvariant(jobs)
    ensures var w := JobsAfterSave(jobs, j, isNew);
      && (w.Some? <==> ValidJob(j) && (isNew <==> j.id !in jobs))
      && (w.Some? ==> JobsInvariant(w.value) && w.value.Keys == jobs.Keys + {j.id})
  {
  }

  // ---------------------------------------------------------------------
  // The store itself

  class Database {
    var users: map<Id, User>
    var jobs: map<Id, JobRecord>
    var applications: seq<ApplicationRecord>
    var chats: seq<ChatRecord>

    ghost predicate Valid()
      reads this
    {
      UsersInvariant(users) && JobsInvariant(jobs) && ApplicationsInvariant(applications) && ChatsInvariant(chats)
    }

    constructor Empty()
      ensures Valid()
      ensures users == map[] && jobs == map[] && applications == [] && chats == []
    {
      users, jobs, applications, chats := map[], map[], [], [];
    }

    /** `application.save()`. On success the document has run its hook and
        is no longer new; on failure the collection is untouched. */
    method SaveApplication(doc: ApplicationDocument, now: int) returns (ok: bool)
      requires Valid()
      modifies this, doc
      ensures Valid()
      ensures var w := ApplicationsAfterSave(old(applications), old(doc.Record()), old(doc.isNew), now);
        && ok == w.Some?
        && applications == (if ok then w.value else old(applications))
      ensures ok ==> doc.Record() == ApplicationPreSaved(old(doc.Record()), old(doc.isNew), now) && !doc.isNew
      ensures !ok ==> doc.isNew == old(doc.isNew)
      ensures users == old(users) && jobs == old(jobs) && chats == old(chats)
    {
      ApplicationSaveKeepsInvariant(applications, doc.Record(), doc.isNew, now);
      var w := ApplicationsAfterSave(applications, doc.Record(), doc.isNew, now);
      if !ValidApplication(doc.Record()) {
        return false;
      }
      doc.PreSave(now);
      if w.None? {
        return false;
      }
      applications := w.value;
      doc.isNew := false;
      ok := true;
    }

    /** `message.save()`. */
    method SaveChat(doc: ChatDocument, now: int) returns (ok: bool)
      requires Valid()
      requires DistinctReaders(doc.isRead)
      requires doc.isNew ==> !ReadBy(doc.isRead, doc.senderId)
      modifies this, doc
      ensures Valid()
      ensures var w := ChatsAfterSave(old(chats), old(doc.Record()), old(doc.isNew), now);
        && ok == w.Some?
        && chats == (if ok then w.value else old(chats))
      ensures ok ==> doc.Record() == ChatPreSaved(old(doc.Record()), old(doc.isNew), now) && !doc.isNew
      ensures !ok ==> doc.isNew == old(doc.isNew)
      ensures users == old(users) && jobs == old(jobs) && applications == old(applications)
    {
      ChatSaveKeepsInvariant(chats, doc.Record(), doc.isNew, now);
      var w := ChatsAfterSave(chats, doc.Record(), doc.isNew, now);
      if !ValidChat(doc.Record()) {
        return false;
      }
      doc.PreSave(now);
      if w.None? {
        return false;
      }
      chats := w.value;
      doc.isNew := false;
      ok := true;
    }

    /** `job.save()`. */
    method SaveJob(doc: JobDocument) returns (ok: bool)
      requires Valid()
      modifies this, doc
      ensures Valid()
      ensures var w := JobsAfterSave(old(jobs), old(doc.Record()), old(doc.isNew));
        && ok == w.Some?
        && jobs == (if ok then w.value else old(jobs))
      ensures doc.Record() == old(doc.Record())
      ensures doc.isNew == (old(doc.isNew) && !ok)
      ensures users == old(users) && applications == old(applications) && chats == old(chats)
    {
      JobSaveKeepsInvariant(jobs, doc.Record(), doc.isNew);
      var w := JobsAfterSave(jobs, doc.Record(), doc.isNew);
      if w.None? {
        return false;
      }
      jobs := w.value;
      doc.isNew := false;
      ok := true;
    }
  }
}
