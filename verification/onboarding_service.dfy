/** The onboarding service as the source writes it: each call, with its gate,
    updates the tables step by step and realises its outcome. */
module OnboardingService {
  import opened Common
  import opened Text
  import opened Transactions
  import opened Onboarding

  // The documents a draft starts with, in the order of their types.
  function PendingDocs(user: Uuid, form: Uuid, types: seq<string>): seq<Document> {
    if types == [] then []
    else PendingDocs(user, form, types[..|types| - 1]) + [Document(ObjectKey(user, form, types[|types| - 1]), Awaiting)]
  }

  // An insert refused along the way refuses the whole list.
  lemma {:induction false} RefusalSticks(docs: map<DocId, Document>, user: Uuid, form: Uuid, types: seq<string>, i: nat)
    requires i <= |types| && InsertDocs(docs, user, form, types[..i]) == None
    ensures InsertDocs(docs, user, form, types) == None
  {
    if i == |types| {
      assert types[..i] == types;
    } else {
      assert types[..|types| - 1][..i] == types[..i];
      RefusalSticks(docs, user, form, types[..|types| - 1], i);
    }
  }

  // internal/services/users/business/onboarding.go
  class Service {
    const repo: Database<World>

    constructor ()
      ensures fresh(repo) && repo.tx.None? && repo.db == EMPTY
    {
      repo := new Database(EMPTY);
    }

    method InitOnboarding(user: Uuid, claim: Role, role: Role, rawCountry: string, newId: Uuid) returns (reply: Reply)
      requires repo.tx.None?
      modifies repo
      ensures repo.tx.None?
      ensures Outcome(repo.db, reply) == Init(old(repo.db), user, claim, role, rawCountry, newId)
    {
      var refusal := Gate(repo.db, user, claim);
      if refusal.Some? { return refusal.value; }
      if role != claim { return RoleMismatch; }
      var country := CountryOf(rawCountry);
      if country.None? { return Invalid; }
      var docDefs := ListRequired(repo.db.defs, role, country.value);
      if |docDefs| == 0 { return ConfigMissing; }
      var created := CreateOnboardingDraft(user, role, newId, docDefs);
      if created.None? { return Failed; }
      return Done;
    }

    /** One onboarding and one awaiting document per type, all or nothing. */
    method CreateOnboardingDraft(user: Uuid, role: Role, newId: Uuid, docDefs: seq<string>)
      returns (created: Option<seq<Document>>)
      requires repo.tx.None?
      modifies repo
      ensures repo.tx.None?
      ensures match CreateDraft(old(repo.db), user, role, newId, docDefs)
              case None => created == None && repo.db == old(repo.db)
              case Some(w) => created == Some(PendingDocs(user, newId, docDefs)) && repo.db == w
    {
      ghost var w := repo.db;
      repo.BeginTx();
      if newId in repo.Rows().forms {
        repo.Rollback();
        return None;
      }
      var forms := repo.Rows().forms[newId := Form(user, role, Draft)];
      repo.Exec(repo.Rows().(forms := forms));
      var pendingDocs := [];
      for i := 0 to |docDefs|
        invariant repo.tx.Some? && repo.db == w
        invariant InsertDocs(w.docs, user, newId, docDefs[..i]) == Some(repo.Rows().docs)
        invariant repo.Rows() == w.(forms := forms, docs := repo.Rows().docs)
        invariant pendingDocs == PendingDocs(user, newId, docDefs[..i])
      {
        assert docDefs[..i + 1][..i] == docDefs[..i];
        var inserted := InsertDoc(repo.Rows().docs, user, newId, docDefs[i]);
        if inserted.None? {
          RefusalSticks(w.docs, user, newId, docDefs, i + 1);
          repo.Rollback();
          return None;
        }
        repo.Exec(repo.Rows().(docs := inserted.value));
        pendingDocs := pendingDocs + [repo.Rows().docs[DocId(newId, docDefs[i])]];
      }
      assert docDefs[..|docDefs|] == docDefs;
      repo.Commit();
      return Some(pendingDocs);
    }

    method SubmitOnboarding(user: Uuid, claim: Role, id: Uuid) returns (reply: Reply)
      requires repo.tx.None?
      modifies repo
      ensures repo.tx.None?
      ensures Outcome(repo.db, reply) == Submit(old(repo.db), user, claim, id)
    {
      var refusal := Gate(repo.db, user, claim);
      if refusal.Some? { return refusal.value; }
      if id == "" { return Invalid; }
      if !Owns(repo.db, user, id) { return FormNotFound; }
      var status := repo.db.forms[id].status;
      if status == Approved { return AlreadyApproved; }
      if status == Pending { return AlreadySubmitted; }
      var incompleteCount := |Missing(repo.db, id)|;
      if incompleteCount > 0 { return UploadsIncomplete; }
      repo.BeginTx();
      repo.Exec(SetStatus(repo.Rows(), id, Pending));
      repo.Exec(SetComplete(repo.Rows(), user, true));
      repo.Commit();
      return Done;
    }

    method ResubmitOnboarding(user: Uuid, claim: Role, id: Uuid) returns (reply: Reply)
      requires repo.tx.None?
      modifies repo
      ensures repo.tx.None?
      ensures Outcome(repo.db, reply) == Resubmit(old(repo.db), user, claim, id)
    {
      var refusal := Gate(repo.db, user, claim);
      if refusal.Some? { return refusal.value; }
      if id == "" { return Invalid; }
      if !Owns(repo.db, user, id) { return FormNotFound; }
      if repo.db.forms[id].status != Rejected { return NotRejected; }
      repo.BeginTx();
      repo.Exec(SetStatus(repo.Rows(), id, Draft));
      repo.Exec(SetComplete(repo.Rows(), user, false));
      repo.Commit();
      return Done;
    }

    method MarkDocumentUploaded(rawKey: string) returns (reply: Reply)
      requires repo.tx.None?
      modifies repo
      ensures repo.tx.None?
      ensures Outcome(repo.db, reply) == MarkUploaded(old(repo.db), rawKey)
    {
      var s3Key := TrimSpace(rawKey);
      if s3Key == "" { return Invalid; }
      var affected := |Hits(repo.db.docs, s3Key)|;
      repo.Exec(repo.Rows().(docs := MarkByKey(repo.Rows().docs, s3Key)));
      if affected == 0 {
        NoHitsNoChange(old(repo.db.docs), s3Key);
        return DocumentNotFound;
      }
      return Done;
    }
  }

  lemma NoHitsNoChange(docs: map<DocId, Document>, key: string)
    requires |Hits(docs, key)| == 0
    ensures MarkByKey(docs, key) == docs
  {
    forall k | k in docs && docs[k].s3Key == key
      ensures docs[k].upload == Uploaded
    {
      assert k !in Hits(docs, key);
    }
  }
}
