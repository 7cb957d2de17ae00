/** What every run of the onboarding workflow keeps. */
module OnboardingProofs {
  import opened Common
  import opened IntSets
  import opened Text
  import opened Onboarding

  /* ---------- the completion flag ---------- */

  // A user's onboardings that are submitted or approved.
  ghost function Underway(w: World, u: Uuid): set<Uuid> {
    set f | f in w.forms && w.forms[f].user == u && (w.forms[f].status == Pending || w.forms[f].status == Approved)
  }

  ghost predicate FlagAgrees(w: World) {
    && (forall f | f in w.forms :: w.forms[f].user in w.users)
    && (forall u | u in w.users :: |Underway(w, u)| == if w.users[u].complete then 1 else 0)
  }

  // Nothing about u's flag or underway onboardings changed.
  lemma SameUnderway(w: World, v: World, u: Uuid)
    requires forall f | f in w.forms && w.forms[f].user == u :: f in v.forms && v.forms[f] == w.forms[f]
    requires forall f | f in v.forms && f !in w.forms && v.forms[f].user == u :: v.forms[f].status == Draft
    requires forall f | f in v.forms && f in w.forms :: v.forms[f].user == w.forms[f].user
    ensures Underway(v, u) == Underway(w, u)
  {
  }

  lemma InitShape(w: World, u: Uuid, claim: Role, role: Role, country: string, form: Uuid)
    ensures var v := Init(w, u, claim, role, country, form).world;
            v == w || (form !in w.forms && u in w.users && v.users == w.users
                       && v.forms == w.forms[form := Form(u, role, Draft)])
  {
  }

  lemma InitKeepsFlag(w: World, u: Uuid, claim: Role, role: Role, country: string, form: Uuid)
    requires FlagAgrees(w)
    ensures FlagAgrees(Init(w, u, claim, role, country, form).world)
  {
    InitShape(w, u, claim, role, country, form);
    DraftKeepsFlag(w, Init(w, u, claim, role, country, form).world, u, role, form);
  }

  lemma DraftKeepsFlag(w: World, v: World, u: Uuid, role: Role, form: Uuid)
    requires FlagAgrees(w)
    requires v == w || (form !in w.forms && u in w.users && v.users == w.users
                        && v.forms == w.forms[form := Form(u, role, Draft)])
    ensures FlagAgrees(v)
  {
    forall x | x in v.users
      ensures |Underway(v, x)| == if v.users[x].complete then 1 else 0
    {
      SameUnderway(w, v, x);
    }
  }

  // Changing the status of one onboarding changes only its owner's set.
  lemma StatusMoves(w: World, f: Uuid, status: Status, u: Uuid)
    requires f in w.forms
    ensures var v := SetStatus(w, f, status);
            Underway(v, u) == if w.forms[f].user != u then Underway(w, u)
                              else if status == Pending || status == Approved then Underway(w, u) + {f}
                              else Underway(w, u) - {f}
  {
  }

  // A user with none underway gets one and the flag, or moves one outside both.
  lemma MoveKeepsFlag(w: World, u: Uuid, form: Uuid, status: Status)
    requires FlagAgrees(w) && Owns(w, u, form) && !w.users[u].complete && (status == Pending || status == Draft)
    ensures FlagAgrees(SetComplete(SetStatus(w, form, status), u, status == Pending))
  {
    var moved := SetStatus(w, form, status);
    var v := SetComplete(moved, u, status == Pending);
    assert Underway(w, u) == {};
    forall x | x in v.users
      ensures |Underway(v, x)| == if v.users[x].complete then 1 else 0
    {
      StatusMoves(w, form, status, x);
      assert Underway(v, x) == Underway(moved, x);
    }
  }

  lemma SubmitKeepsFlag(w: World, u: Uuid, claim: Role, form: Uuid)
    requires FlagAgrees(w)
    ensures FlagAgrees(Submit(w, u, claim, form).world)
  {
    if Submit(w, u, claim, form).reply == Done { MoveKeepsFlag(w, u, form, Pending); }
  }

  lemma ResubmitKeepsFlag(w: World, u: Uuid, claim: Role, form: Uuid)
    requires FlagAgrees(w)
    ensures FlagAgrees(Resubmit(w, u, claim, form).world)
  {
    if Resubmit(w, u, claim, form).reply == Done { MoveKeepsFlag(w, u, form, Draft); }
  }

  lemma ApproveKeepsFlag(w: World, form: Uuid)
    requires FlagAgrees(w) && form in w.forms && w.forms[form].status == Pending
    ensures FlagAgrees(SetStatus(w, form, Approved))
  {
    var u, v := w.forms[form].user, SetStatus(w, form, Approved);
    assert form in Underway(w, u);
    forall x | x in v.users
      ensures |Underway(v, x)| == if v.users[x].complete then 1 else 0
    {
      StatusMoves(w, form, Approved, x);
      if x == u { assert Underway(w, u) + {form} == Underway(w, u); }
    }
  }

  lemma RejectKeepsFlag(w: World, form: Uuid)
    requires FlagAgrees(w) && form in w.forms && w.forms[form].status == Pending
    ensures FlagAgrees(SetComplete(SetStatus(w, form, Rejected), w.forms[form].user, false))
  {
    var u, moved := w.forms[form].user, SetStatus(w, form, Rejected);
    var v := SetComplete(moved, u, false);
    assert form in Underway(w, u);
    forall x | x in v.users
      ensures |Underway(v, x)| == if v.users[x].complete then 1 else 0
    {
      StatusMoves(w, form, Rejected, x);
      assert Underway(v, x) == Underway(moved, x);
    }
  }

  lemma AccountsKeepFlag(w: World, e: Event)
    requires FlagAgrees(w) && (e.Enrol? || e.SetActive? || e.Configure?)
    ensures FlagAgrees(Environment(w, e))
  {
    var v := Environment(w, e);
    forall x | x in v.users
      ensures |Underway(v, x)| == if v.users[x].complete then 1 else 0
    {
      SameUnderway(w, v, x);
      if x !in w.users { assert Underway(w, x) == {}; }
    }
  }

  lemma UploadKeepsFlag(w: World, key: string)
    requires FlagAgrees(w)
    ensures FlagAgrees(MarkUploaded(w, key).world)
  {
    var v := MarkUploaded(w, key).world;
    forall x | x in v.users
      ensures |Underway(v, x)| == if v.users[x].complete then 1 else 0
    {
      SameUnderway(w, v, x);
    }
  }

  lemma {:induction false} FlagAlwaysAgrees(r: Run)
    ensures FlagAgrees(After(r))
  {
    if r.Next? {
      FlagAlwaysAgrees(r.before);
      var w := After(r.before);
      match r.event
      case InitCall(u, claim, role, country, f) => InitKeepsFlag(w, u, claim, role, country, f);
      case SubmitCall(u, claim, f) => SubmitKeepsFlag(w, u, claim, f);
      case ResubmitCall(u, claim, f) => ResubmitKeepsFlag(w, u, claim, f);
      case UploadCall(key) => UploadKeepsFlag(w, key);
      case Approve(f) => if f in w.forms && w.forms[f].status == Pending { ApproveKeepsFlag(w, f); }
      case Reject(f) => if f in w.forms && w.forms[f].status == Pending { RejectKeepsFlag(w, f); }
      case _ => AccountsKeepFlag(w, r.event);
    }
  }

  /** In every reachable state the flag is set iff exactly one of the user's
      onboardings is pending or approved, and clear iff none is. */
  lemma FlagMeansUnderway(r: Run, u: Uuid)
    requires u in After(r).users
    ensures var w := After(r);
            && (w.users[u].complete <==> exists f :: Underway(w, u) == {f})
            && (!w.users[u].complete <==> Underway(w, u) == {})
  {
    FlagAlwaysAgrees(r);
    var w := After(r);
    var s := Underway(w, u);
    if w.users[u].complete {
      var f := SomeElement(s);
      assert s == {f} by {
        assert |s - {f}| == 0;
        assert s == (s - {f}) + {f};
      }
    }
  }

  /** In every reachable state the gate lets a request through iff it names an
      active account of the claimed role with no onboarding pending or approved. */
  lemma GateMeansNoneUnderway(r: Run, u: Uuid, claim: Role)
    ensures var w := After(r);
            Gate(w, u, claim) == None <==>
            u in w.users && w.users[u].role == claim && w.users[u].active && Underway(w, u) == {}
  {
    if u in After(r).users { FlagMeansUnderway(r, u); }
  }

  /* ---------- the documents of a draft ---------- */

  // A successful init makes one awaiting document per listed type, and no other.
  lemma {:induction false} InsertsAreExact(docs: map<DocId, Document>, u: Uuid, f: Uuid, types: seq<string>)
    requires NoRepeats(types) && forall t :: DocId(f, t) !in docs
    ensures var r := InsertDocs(docs, u, f, types);
            && r.Some?
            && (forall k :: k in r.value <==> k in docs || (k.form == f && k.docType in types))
            && (forall k | k in docs :: r.value[k] == docs[k])
            && (forall t | t in types :: r.value[DocId(f, t)] == Document(ObjectKey(u, f, t), Awaiting))
  {
    if types != [] {
      var init, last := types[..|types| - 1], types[|types| - 1];
      InsertsAreExact(docs, u, f, init);
      assert last !in init;
      assert types == init + [last];
    }
  }

  // The types asked of an init request, by the configuration it meets.
  function Asked(w: World, e: Event): seq<string>
    requires e.InitCall?
  {
    match CountryOf(e.country) case None => [] case Some(c) => ListRequired(w.defs, e.role, c)
  }

  // The types required when onboarding f was opened.
  ghost function RequiredAt(r: Run, f: Uuid): set<string> {
    match r
    case Boot => {}
    case Next(before, e) =>
      if e.InitCall? && e.form == f && Step(After(before), e).reply == Done then
        set t | t in Asked(After(before), e)
      else RequiredAt(before, f)
  }

  ghost predicate DocsSound(w: World) {
    forall k | k in w.docs ::
      k.form in w.forms && w.docs[k].s3Key == ObjectKey(w.forms[k.form].user, k.form, k.docType)
  }

  ghost predicate Exact(w: World, f: Uuid, types: set<string>) {
    types != {} && forall t :: DocId(f, t) in w.docs <==> t in types
  }

  // Only a draft may lack an upload.
  ghost predicate OnlyDraftsLack(w: World) {
    forall f | f in w.forms && w.forms[f].status != Draft :: Missing(w, f) == {}
  }

  ghost predicate Sound(w: World) { DistinctTypes(w.defs) && DocsSound(w) && OnlyDraftsLack(w) }

  // A step that neither adds nor takes documents and forms, nor unmarks an upload.
  ghost predicate KeepsRows(w: World, v: World) {
    && v.forms.Keys == w.forms.Keys && (forall f | f in w.forms :: v.forms[f].user == w.forms[f].user)
    && v.docs.Keys == w.docs.Keys
    && (forall k | k in w.docs :: v.docs[k].s3Key == w.docs[k].s3Key
          && (w.docs[k].upload == Uploaded ==> v.docs[k].upload == Uploaded))
  }

  lemma NonInitKeepsRows(w: World, e: Event)
    requires !e.InitCall?
    ensures KeepsRows(w, Step(w, e).world)
  {
  }

  // Leaving the draft state takes every upload.
  lemma LeavingDraftIsFull(w: World, e: Event, f: Uuid)
    requires !e.InitCall? && OnlyDraftsLack(w) && f in w.forms && Step(w, e).world.forms[f].status != Draft
    requires KeepsRows(w, Step(w, e).world)
    ensures Missing(w, f) == {}
  {
  }

  lemma NonInitKeepsSound(w: World, e: Event)
    requires Sound(w) && !e.InitCall?
    ensures Sound(Step(w, e).world) && KeepsRows(w, Step(w, e).world)
  {
    NonInitKeepsRows(w, e);
    var v := Step(w, e).world;
    forall f | f in v.forms && v.forms[f].status != Draft
      ensures Missing(v, f) == {}
    {
      LeavingDraftIsFull(w, e, f);
      assert Missing(v, f) <= Missing(w, f);
    }
    assert DocsSound(v);
  }

  // v is w with draft f opened for u, its documents those of the listed types.
  ghost predicate Opens(w: World, v: World, u: Uuid, role: Role, f: Uuid, types: seq<string>) {
    && f !in w.forms && v.forms == w.forms[f := Form(u, role, Draft)]
    && v.defs == w.defs && v.users == w.users && types != []
    && (forall k :: k in v.docs <==> k in w.docs || (k.form == f && k.docType in types))
    && (forall k | k in w.docs :: v.docs[k] == w.docs[k])
    && (forall t | t in types :: v.docs[DocId(f, t)] == Document(ObjectKey(u, f, t), Awaiting))
  }

  lemma InitOpens(w: World, e: Event)
    requires DocsSound(w) && DistinctTypes(w.defs) && e.InitCall?
    ensures var o := Step(w, e);
            if o.reply == Done then Opens(w, o.world, e.user, e.role, e.form, Asked(w, e)) else o.world == w
  {
    if Step(w, e).reply == Done {
      RequiredOnce(w.defs, e.role, CountryOf(e.country).value);
      assert forall t :: DocId(e.form, t) !in w.docs;
      InsertsAreExact(w.docs, e.user, e.form, Asked(w, e));
    }
  }

  lemma OpensKeepsSound(w: World, v: World, u: Uuid, role: Role, f: Uuid, types: seq<string>)
    requires Sound(w) && Opens(w, v, u, role, f, types)
    ensures Sound(v) && Exact(v, f, set t | t in types)
    ensures forall g | g in w.forms :: Missing(v, g) == Missing(w, g)
    ensures forall g, s | Exact(w, g, s) && g != f :: Exact(v, g, s)
  {
    var s := set t | t in types;
    assert types[0] in s;
    forall t
      ensures DocId(f, t) in v.docs <==> t in s
    {
      assert DocId(f, t) !in w.docs;
    }
    assert Exact(v, f, s);
    assert DocsSound(v);
    forall g | g in w.forms
      ensures Missing(v, g) == Missing(w, g)
    {
    }
    forall g: Uuid, s: set<string> | Exact(w, g, s) && g != f
      ensures Exact(v, g, s)
    {
      assert forall t :: DocId(g, t) in v.docs <==> DocId(g, t) in w.docs;
    }
  }

  lemma InitKeepsSound(w: World, e: Event)
    requires Sound(w) && e.InitCall?
    ensures Sound(Step(w, e).world)
    ensures forall g | g in w.forms :: g in Step(w, e).world.forms && Missing(Step(w, e).world, g) == Missing(w, g)
  {
    InitOpens(w, e);
    if Step(w, e).reply == Done {
      OpensKeepsSound(w, Step(w, e).world, e.user, e.role, e.form, Asked(w, e));
    }
  }

  // One step keeps the documents of one onboarding exact.
  lemma StepKeepsExact(w: World, e: Event, f: Uuid, types: set<string>)
    requires Sound(w) && f in w.forms && Exact(w, f, types)
    ensures f in Step(w, e).world.forms && Exact(Step(w, e).world, f, types)
    ensures e.InitCall? && e.form == f ==> Step(w, e).reply != Done
  {
    var v := Step(w, e).world;
    if e.InitCall? {
      InitOpens(w, e);
      if Step(w, e).reply == Done { OpensKeepsSound(w, v, e.user, e.role, e.form, Asked(w, e)); }
    } else {
      NonInitKeepsRows(w, e);
      assert forall t :: DocId(f, t) in v.docs <==> DocId(f, t) in w.docs;
    }
  }

  // An onboarding that is new after a step was opened by it, exact.
  lemma NewFormIsExact(w: World, e: Event, f: Uuid)
    requires Sound(w) && f !in w.forms && f in Step(w, e).world.forms
    ensures e.InitCall? && e.form == f && Step(w, e).reply == Done
    ensures Exact(Step(w, e).world, f, set t | t in Asked(w, e))
  {
    if e.InitCall? {
      InitOpens(w, e);
      OpensKeepsSound(w, Step(w, e).world, e.user, e.role, e.form, Asked(w, e));
    } else {
      NonInitKeepsRows(w, e);
      assert false;
    }
  }

  /** Whatever happens later, an onboarding has exactly one document per type that
      was required when it was opened, at least one, each under its own object
      key; and only a draft may lack an upload. */
  lemma {:induction false} DocumentsStayExact(r: Run)
    ensures Sound(After(r))
    ensures forall f | f in After(r).forms :: Exact(After(r), f, RequiredAt(r, f))
  {
    if r.Next? {
      DocumentsStayExact(r.before);
      var w := After(r.before);
      if r.event.InitCall? { InitKeepsSound(w, r.event); } else { NonInitKeepsSound(w, r.event); }
      forall f | f in After(r).forms
        ensures Exact(After(r), f, RequiredAt(r, f))
      {
        if f in w.forms {
          StepKeepsExact(w, r.event, f, RequiredAt(r.before, f));
        } else {
          NewFormIsExact(w, r.event, f);
        }
      }
    }
  }

  ghost predicate WasSubmitted(r: Run, f: Uuid) {
    match r
    case Boot => false
    case Next(before, _) =>
      WasSubmitted(before, f) || (f in After(r).forms && After(r).forms[f].status == Pending)
  }

  // The only way out of the draft state is a submission.
  lemma DraftLeavesBySubmit(w: World, e: Event, f: Uuid)
    requires f in w.forms ==> w.forms[f].status == Draft
    requires f in Step(w, e).world.forms && Step(w, e).world.forms[f].status != Draft
    ensures Step(w, e).world.forms[f].status == Pending
  {
    if e.InitCall? { InitShape(w, e.user, e.claim, e.role, e.country, e.form); }
  }

  lemma {:induction false} UnderwayWasSubmitted(r: Run, f: Uuid)
    requires f in After(r).forms && After(r).forms[f].status != Draft
    ensures WasSubmitted(r, f)
  {
    if r.Next? {
      var w := After(r.before);
      if f in w.forms && w.forms[f].status != Draft {
        UnderwayWasSubmitted(r.before, f);
      } else {
        DraftLeavesBySubmit(w, r.event, f);
      }
    }
  }

  /** Once submitted, for ever: an onboarding keeps exactly its required documents
      and every one of them stays uploaded, through review, rejection and
      resubmission; in particular while it is pending or approved. */
  lemma {:induction false} SubmittedStaysComplete(r: Run, f: Uuid)
    requires WasSubmitted(r, f)
    ensures f in After(r).forms && Exact(After(r), f, RequiredAt(r, f)) && Missing(After(r), f) == {}
  {
    DocumentsStayExact(r);
    var w, v := After(r.before), After(r);
    if WasSubmitted(r.before, f) {
      SubmittedStaysComplete(r.before, f);
      DocumentsStayExact(r.before);
      if r.event.InitCall? {
        InitKeepsSound(w, r.event);
      } else {
        NonInitKeepsSound(w, r.event);
        assert Missing(v, f) <= Missing(w, f);
      }
    }
  }

  /* ---------- callbacks ---------- */

  /** A callback succeeds iff an awaiting document has its key, and then marks that
      document and no other. */
  lemma CallbackFlipsOne(w: World, raw: string) returns (k: DocId)
    requires DocsSound(w)
    ensures var o := MarkUploaded(w, raw);
            && (o.reply == Done <==>
                  TrimSpace(raw) != "" && exists d :: d in w.docs && w.docs[d] == Document(TrimSpace(raw), Awaiting))
            && (o.reply != Done ==> o.world == w)
            && (o.reply == Done ==>
                  k in w.docs && w.docs[k] == Document(TrimSpace(raw), Awaiting) &&
                  o.world == w.(docs := w.docs[k := Document(TrimSpace(raw), Uploaded)]))
  {
    var key, o := TrimSpace(raw), MarkUploaded(w, raw);
    var hits := Hits(w.docs, key);
    assert forall d | d in w.docs && w.docs[d] == Document(key, Awaiting) :: d in hits;
    if hits == {} {
      k := DocId("", "");
    } else {
      k := SomeElement(hits);
      assert w.docs[k] == Document(key, Awaiting);
      forall d | d in w.docs && w.docs[d].s3Key == key
        ensures d == k
      {
        KeyIsInjective(w.forms[k.form].user, k.form, k.docType, w.forms[d.form].user, d.form, d.docType);
      }
      assert MarkByKey(w.docs, key) == w.docs[k := Document(key, Uploaded)];
    }
  }

  // Callbacks for u's onboarding f that succeeded.
  ghost function Successes(r: Run, u: Uuid, f: Uuid): nat {
    match r
    case Boot => 0
    case Next(before, e) =>
      Successes(before, u, f)
      + if e.UploadCall? && ObjectKey(u, f, "") <= TrimSpace(e.key) && Step(After(before), e).reply == Done
        then 1 else 0
  }

  ghost function UploadedOf(w: World, u: Uuid, f: Uuid): set<DocId> {
    set k | k in w.docs && k.form == f && f in w.forms && w.forms[f].user == u && w.docs[k].upload == Uploaded
  }

  lemma CallbackCounts(w: World, raw: string, u: Uuid, f: Uuid)
    requires DocsSound(w)
    ensures var o := MarkUploaded(w, raw);
            |UploadedOf(o.world, u, f)| ==
            |UploadedOf(w, u, f)| + if ObjectKey(u, f, "") <= TrimSpace(raw) && o.reply == Done then 1 else 0
  {
    var o := MarkUploaded(w, raw);
    var k := CallbackFlipsOne(w, raw);
    if o.reply == Done {
      PrefixNamesForm(u, f, w.forms[k.form].user, k.form, k.docType);
      if k.form == f && w.forms[f].user == u {
        assert k !in UploadedOf(w, u, f);
        assert UploadedOf(o.world, u, f) == UploadedOf(w, u, f) + {k};
      } else {
        assert UploadedOf(o.world, u, f) == UploadedOf(w, u, f);
      }
    }
  }

  lemma OtherEventsMarkNothing(w: World, e: Event, u: Uuid, f: Uuid)
    requires Sound(w) && !e.UploadCall?
    ensures UploadedOf(Step(w, e).world, u, f) == UploadedOf(w, u, f)
  {
    if e.InitCall? {
      InitOpens(w, e);
    } else {
      assert Step(w, e).world.docs == w.docs;
      NonInitKeepsRows(w, e);
    }
  }

  lemma {:induction false} SuccessesAreUploads(r: Run, u: Uuid, f: Uuid)
    ensures Successes(r, u, f) == |UploadedOf(After(r), u, f)|
  {
    if r.Next? {
      SuccessesAreUploads(r.before, u, f);
      DocumentsStayExact(r.before);
      var w := After(r.before);
      if r.event.UploadCall? {
        CallbackCounts(w, r.event.key, u, f);
      } else {
        OtherEventsMarkNothing(w, r.event, u, f);
      }
    }
  }

  lemma {:induction false} SameSize(f: Uuid, types: set<string>, docs: set<DocId>)
    requires forall k :: k in docs <==> k.form == f && k.docType in types
    ensures |docs| == |types|
    decreases |types|
  {
    if types == {} {
      assert docs == {};
    } else {
      var t := SomeElement(types);
      SameSize(f, types - {t}, docs - {DocId(f, t)});
    }
  }

  lemma CanSubmitWhenFull(w: World, u: Uuid, claim: Role, f: Uuid, types: set<string>)
    requires Owns(w, u, f) && f != "" && Exact(w, f, types)
    ensures |UploadedOf(w, u, f)| <= |types|
    ensures Gate(w, u, claim) == None && (w.forms[f].status == Draft || w.forms[f].status == Rejected) ==>
              (Submit(w, u, claim, f).reply == Done <==> |UploadedOf(w, u, f)| == |types|)
  {
    assert DocsOf(w, f) == UploadedOf(w, u, f) + Missing(w, f);
    SameSize(f, types, DocsOf(w, f));
  }

  /** An onboarding takes at most one successful callback per required type, and
      its owner, once past the gate, can submit a draft or a rejected one exactly
      when there have been as many successes as it has documents. */
  lemma SubmittableWhenAllUploaded(r: Run, u: Uuid, claim: Role, f: Uuid)
    requires Owns(After(r), u, f) && f != ""
    ensures var w := After(r);
            && Successes(r, u, f) <= |RequiredAt(r, f)|
            && (Gate(w, u, claim) == None && (w.forms[f].status == Draft || w.forms[f].status == Rejected) ==>
                  (Submit(w, u, claim, f).reply == Done <==> Successes(r, u, f) == |RequiredAt(r, f)|))
  {
    DocumentsStayExact(r);
    SuccessesAreUploads(r, u, f);
    CanSubmitWhenFull(After(r), u, claim, f, RequiredAt(r, f));
  }

  lemma WaysBack(w: World, f: Uuid)
    requires Sound(w) && f in w.forms && f != "" && w.forms[f].status == Pending
    requires w.forms[f].user in w.users && w.users[w.forms[f].user].active
    ensures var u := w.forms[f].user;
            var claim, back := w.users[u].role, Environment(w, Reject(f));
            && Gate(back, u, claim) == None
            && Submit(back, u, claim, f).reply == Done
            && Resubmit(back, u, claim, f).reply == Done
            && Submit(Resubmit(back, u, claim, f).world, u, claim, f).reply == Done
  {
    var u := w.forms[f].user;
    var back := Environment(w, Reject(f));
    assert Missing(back, f) == Missing(w, f) == {};
    var draft := Resubmit(back, u, w.users[u].role, f).world;
    assert Missing(draft, f) == {};
  }

  /** No lock-out: after a rejection the owner, if active, passes the gate again,
      and both ways back work: submitting at once, and resubmitting first. */
  lemma RejectedCanReturn(r: Run, f: Uuid)
    requires f in After(r).forms && f != "" && After(r).forms[f].status == Pending
    requires var u := After(r).forms[f].user; u in After(r).users && After(r).users[u].active
    ensures var u := After(r).forms[f].user;
            var claim := After(r).users[u].role;
            var back := Step(After(r), Reject(f)).world;
            && Gate(back, u, claim) == None
            && Submit(back, u, claim, f).reply == Done
            && Resubmit(back, u, claim, f).reply == Done
            && Submit(Resubmit(back, u, claim, f).world, u, claim, f).reply == Done
  {
    DocumentsStayExact(r);
    WaysBack(After(r), f);
  }
}
