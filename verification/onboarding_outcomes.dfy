/** What each onboarding call answers and leaves behind, in terms of the rows it
    meets. */
module OnboardingOutcomes {
  import opened Common
  import opened Text
  import opened Onboarding
  import opened OnboardingProofs

  // The answer of the gate in front of init, submit and resubmit.
  ghost predicate TurnedAway(w: World, u: Uuid, claim: Role, reply: Reply) {
    if u !in w.users then reply == UserNotFound
    else if w.users[u].role != claim then reply == RoleMismatch
    else if !w.users[u].active then reply == NotActive
    else w.users[u].complete && reply == AlreadyCompleted
  }

  ghost predicate Admitted(w: World, u: Uuid, claim: Role) {
    u in w.users && w.users[u].role == claim && w.users[u].active && !w.users[u].complete
  }

  // Some definition requires documents of this type there.
  ghost predicate Requires(w: World, role: Role, country: string, docType: string) {
    exists d :: d in w.defs && d.required && d.role == role && d.country == country && d.docType == docType
  }

  // The two letters of the text, in upper case.
  ghost predicate UpperOf(text: string, country: string) {
    |country| == |text| && forall i | 0 <= i < |text| ::
      country[i] == if 'a' <= text[i] <= 'z' then ((text[i] as int) - 32) as char else text[i]
  }

  lemma CountryAnswer(lead: string, text: string, trail: string, country: string)
    requires AllSpace(lead) && AllSpace(trail) && Bare(text)
    requires if text == "" then country == "IN" else UpperOf(text, country)
    ensures CountryOf(lead + text + trail) == if text == "" || ByteLen(text) == 2 then Some(country) else None
  {
    TrimSpaceKeeps(lead, text, trail);
    FoldsEachLetter(text);
    if text != "" { assert Upper(text) == country; }
  }

  lemma ListedIffRequired(w: World, role: Role, country: string)
    ensures forall t :: t in ListRequired(w.defs, role, country) <==> Requires(w, role, country, t)
    ensures ListRequired(w.defs, role, country) == [] <==> forall t :: !Requires(w, role, country, t)
  {
    var types := ListRequired(w.defs, role, country);
    forall t
      ensures t in types <==> Requires(w, role, country, t)
    {
      if d :| d in w.defs && Wanted(d, role, country) && d.docType == t { assert Requires(w, role, country, t); }
      if Requires(w, role, country, t) {
        var d :| d in w.defs && d.required && d.role == role && d.country == country && d.docType == t;
        assert Wanted(d, role, country);
      }
    }
    if types != [] { assert types[0] in types; }
  }

  // A draft for u was opened with one awaiting document per type required for the
  // role in the country, each under its key, and nothing else changed.
  ghost predicate OpensFor(w: World, v: World, u: Uuid, role: Role, country: string, form: Uuid) {
    && v.users == w.users && v.defs == w.defs && v.forms == w.forms[form := Form(u, role, Draft)]
    && (forall k: DocId :: k in v.docs <==>
          k in w.docs || (k.form == form && Requires(w, role, country, k.docType)))
    && (forall k | k in w.docs :: k in v.docs && v.docs[k] == w.docs[k])
    && (forall k | k in v.docs && k.form == form ::
          v.docs[k] == Document("users/" + u + "/onboarding/" + form + "/" + k.docType, Awaiting))
  }

  // Init's refusals before it lists the required documents.
  lemma EarlyRefusal(w: World, u: Uuid, claim: Role, role: Role, raw: string, form: Uuid)
    requires !Admitted(w, u, claim) || role != claim || CountryOf(raw) == None
    ensures var o := Init(w, u, claim, role, raw, form);
            && o.world == w && o.reply != Done
            && (!Admitted(w, u, claim) ==> TurnedAway(w, u, claim, o.reply))
            && (Admitted(w, u, claim) ==> o.reply == if role != claim then RoleMismatch else Invalid)
  {
  }

  // Past those, the reply by what is listed and whether the id is taken.
  lemma LateReply(w: World, u: Uuid, claim: Role, role: Role, raw: string, form: Uuid)
    requires DocsSound(w) && DistinctTypes(w.defs) && Admitted(w, u, claim) && role == claim && CountryOf(raw).Some?
    ensures var types := ListRequired(w.defs, role, CountryOf(raw).value);
            Init(w, u, claim, role, raw, form).reply ==
            if types == [] then ConfigMissing else if form in w.forms then Failed else Done
  {
    var types := ListRequired(w.defs, role, CountryOf(raw).value);
    if form !in w.forms {
      RequiredOnce(w.defs, role, CountryOf(raw).value);
      assert forall t :: DocId(form, t) !in w.docs;
      InsertsAreExact(w.docs, u, form, types);
    }
  }

  lemma OpensMeans(w: World, v: World, u: Uuid, role: Role, country: string, form: Uuid)
    requires DocsSound(w) && Opens(w, v, u, role, form, ListRequired(w.defs, role, country))
    ensures OpensFor(w, v, u, role, country, form)
  {
    ListedIffRequired(w, role, country);
    forall k | k in v.docs && k.form == form
      ensures v.docs[k] == Document("users/" + u + "/onboarding/" + form + "/" + k.docType, Awaiting)
    {
      assert k !in w.docs && k == DocId(form, k.docType);
    }
  }

  lemma InitAt(w: World, u: Uuid, claim: Role, role: Role, raw: string, country: Option<string>, form: Uuid)
    requires Sound(w) && CountryOf(raw) == country
    ensures var o := Step(w, InitCall(u, claim, role, raw, form));
            && (o.reply != Done ==> o.world == w)
            && if !Admitted(w, u, claim) then TurnedAway(w, u, claim, o.reply)
               else if role != claim then o.reply == RoleMismatch
               else if country == None then o.reply == Invalid
               else if forall t :: !Requires(w, role, country.value, t) then o.reply == ConfigMissing
               else if form in w.forms then o.reply == Failed
               else o.reply == Done && OpensFor(w, o.world, u, role, country.value, form)
  {
    var o := Step(w, InitCall(u, claim, role, raw, form));
    if !Admitted(w, u, claim) || role != claim || country == None {
      EarlyRefusal(w, u, claim, role, raw, form);
    } else {
      InitOpens(w, InitCall(u, claim, role, raw, form));
      LateReply(w, u, claim, role, raw, form);
      ListedIffRequired(w, role, country.value);
      if o.reply == Done { OpensMeans(w, o.world, u, role, country.value, form); }
    }
  }

  /** In every reachable state an init for a country given as text, with spaces or
      without, in either case, blank meaning IN, opens exactly the documents the
      definitions require for the role in that country; any other length is
      Invalid; every refusal, in the source's order, changes nothing. */
  lemma InitOutcome(r: Run, u: Uuid, claim: Role, role: Role, lead: string, text: string, trail: string,
                    country: string, form: Uuid)
    requires AllSpace(lead) && AllSpace(trail) && Bare(text)
    requires if text == "" then country == "IN" else UpperOf(text, country)
    ensures var w, o := After(r), Step(After(r), InitCall(u, claim, role, lead + text + trail, form));
            && (o.reply != Done ==> o.world == w)
            && if !Admitted(w, u, claim) then TurnedAway(w, u, claim, o.reply)
               else if role != claim then o.reply == RoleMismatch
               else if text != "" && ByteLen(text) != 2 then o.reply == Invalid
               else if forall t :: !Requires(w, role, country, t) then o.reply == ConfigMissing
               else if form in w.forms then o.reply == Failed
               else o.reply == Done && OpensFor(w, o.world, u, role, country, form)
  {
    DocumentsStayExact(r);
    CountryAnswer(lead, text, trail, country);
    InitAt(After(r), u, claim, role, lead + text + trail,
           if text == "" || ByteLen(text) == 2 then Some(country) else None, form);
  }

  // The onboarding is the user's.
  ghost predicate Has(w: World, u: Uuid, form: Uuid) { form in w.forms && w.forms[form].user == u }

  ghost predicate AllUploaded(w: World, form: Uuid) {
    forall k | k in w.docs && k.form == form :: w.docs[k].upload == Uploaded
  }

  // Only this onboarding's status and this user's flag are different.
  ghost predicate Moved(w: World, v: World, u: Uuid, form: Uuid, status: Status, complete: bool)
    requires u in w.users && form in w.forms
  {
    v == World(w.users[u := Account(w.users[u].role, w.users[u].active, complete)], w.defs,
               w.forms[form := Form(w.forms[form].user, w.forms[form].role, status)], w.docs)
  }

  /** Submitting: in the source's order of checks; success makes the onboarding
      pending and sets the flag, and changes nothing else. */
  lemma SubmitOutcome(w: World, u: Uuid, claim: Role, form: Uuid)
    ensures var o := Step(w, SubmitCall(u, claim, form));
            && (o.reply != Done ==> o.world == w)
            && if !Admitted(w, u, claim) then TurnedAway(w, u, claim, o.reply)
               else if form == "" then o.reply == Invalid
               else if !Has(w, u, form) then o.reply == FormNotFound
               else if w.forms[form].status == Approved then o.reply == AlreadyApproved
               else if w.forms[form].status == Pending then o.reply == AlreadySubmitted
               else if !AllUploaded(w, form) then o.reply == UploadsIncomplete
               else o.reply == Done && Moved(w, o.world, u, form, Pending, true)
  {
    if AllUploaded(w, form) {
      assert Missing(w, form) == {};
    } else {
      var k :| k in w.docs && k.form == form && w.docs[k].upload != Uploaded;
      assert k in Missing(w, form);
    }
  }

  /** Resubmitting: only a rejected onboarding of the user; it becomes a draft again
      and the flag is clear, and nothing else changes. */
  lemma ResubmitOutcome(w: World, u: Uuid, claim: Role, form: Uuid)
    ensures var o := Step(w, ResubmitCall(u, claim, form));
            && (o.reply != Done ==> o.world == w)
            && if !Admitted(w, u, claim) then TurnedAway(w, u, claim, o.reply)
               else if form == "" then o.reply == Invalid
               else if !Has(w, u, form) then o.reply == FormNotFound
               else if w.forms[form].status != Rejected then o.reply == NotRejected
               else o.reply == Done && Moved(w, o.world, u, form, Draft, false)
  {
  }

  /** In every reachable state an upload callback with spaces around its key marks
      the document of that key if it awaits one, and otherwise changes nothing. */
  lemma UploadOutcome(r: Run, lead: string, key: string, trail: string) returns (k: DocId)
    requires AllSpace(lead) && AllSpace(trail) && Bare(key)
    ensures var w, o := After(r), Step(After(r), UploadCall(lead + key + trail));
            && (o.reply != Done ==> o.world == w)
            && if key == "" then o.reply == Invalid
               else if exists d :: d in w.docs && w.docs[d] == Document(key, Awaiting) then
                 && o.reply == Done && k in w.docs && w.docs[k] == Document(key, Awaiting)
                 && o.world == w.(docs := w.docs[k := Document(key, Uploaded)])
               else o.reply == DocumentNotFound
  {
    DocumentsStayExact(r);
    TrimSpaceKeeps(lead, key, trail);
    k := CallbackFlipsOne(After(r), lead + key + trail);
    UploadReplies(After(r), lead + key + trail);
  }

  lemma UploadReplies(w: World, raw: string)
    ensures var reply := MarkUploaded(w, raw).reply;
            (reply == Invalid <==> TrimSpace(raw) == "")
            && (reply == Done || reply == Invalid || reply == DocumentNotFound)
  {
  }

  /** Review decides only pending onboardings: approval changes the status alone,
      rejection the status and the owner's flag. */
  lemma ReviewOutcome(w: World, form: Uuid)
    requires form in w.forms && w.forms[form].user in w.users
    ensures var a, v := Step(w, Approve(form)).world, Step(w, Reject(form)).world;
            var f := w.forms[form];
            if f.status != Pending then a == w && v == w
            else
              && a == w.(forms := w.forms[form := Form(f.user, f.role, Approved)])
              && Moved(w, v, f.user, form, Rejected, false)
  {
  }
}
