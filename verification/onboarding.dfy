/** Role onboarding: the access gate, drafts with one document per required type,
    upload callbacks, submission, review and resubmission. */
module Onboarding {
  import opened Common
  import opened Text
  import Accounts

  type Role = Accounts.Role

  // Row ids are UUIDs in text form: no slash in them.
  type Uuid = s: string | '/' !in s witness ""

  datatype Account = Account(role: Role, active: bool, complete: bool)

  datatype Definition = Definition(docType: string, role: Role, country: string, required: bool)

  datatype Status = Draft | Pending | Approved | Rejected

  datatype Form = Form(user: Uuid, role: Role, status: Status)

  // onboarding_documents is unique on (onboarding_id, document_type).
  datatype DocId = DocId(form: Uuid, docType: string)

  datatype Upload = Awaiting | Uploaded

  datatype Document = Document(s3Key: string, upload: Upload)

  datatype World = World(users: map<Uuid, Account>, defs: seq<Definition>, forms: map<Uuid, Form>,
                         docs: map<DocId, Document>)

  datatype Reply =
    | Done
    | UserNotFound | RoleMismatch | NotActive | AlreadyCompleted
    | Invalid | ConfigMissing | Failed
    | FormNotFound | AlreadyApproved | AlreadySubmitted | UploadsIncomplete | NotRejected
    | DocumentNotFound

  /* ---------- object keys ---------- */

  function ObjectKey(user: Uuid, form: Uuid, docType: string): string {
    "users/" + user + "/onboarding/" + form + "/" + docType
  }

  lemma SamePrefix(p: string, x: string, y: string)
    requires p + x == p + y
    ensures x == y
  {
    assert x == (p + x)[|p|..];
    assert y == (p + y)[|p|..];
  }

  lemma KeyParts(u: Uuid, f: Uuid, t: string)
    ensures ObjectKey(u, f, t) == "users/" + (u + ['/'] + ("onboarding/" + (f + ['/'] + t)))
  {
    assert "/onboarding/" == ['/'] + "onboarding/";
  }

  /** Two documents have the same object key only if they have the same user,
      onboarding and type. */
  lemma KeyIsInjective(u: Uuid, f: Uuid, t: string, v: Uuid, g: Uuid, s: string)
    requires ObjectKey(u, f, t) == ObjectKey(v, g, s)
    ensures u == v && f == g && t == s
  {
    var x, y := "onboarding/" + (f + ['/'] + t), "onboarding/" + (g + ['/'] + s);
    KeyParts(u, f, t);
    KeyParts(v, g, s);
    SamePrefix("users/", u + ['/'] + x, v + ['/'] + y);
    CutIsUnique('/', u, x, v, y);
    SamePrefix("onboarding/", f + ['/'] + t, g + ['/'] + s);
    CutIsUnique('/', f, t, g, s);
  }

  // A key starts with an onboarding's prefix exactly when it is one of its keys.
  lemma PrefixNamesForm(u: Uuid, f: Uuid, v: Uuid, g: Uuid, s: string)
    ensures ObjectKey(u, f, "") <= ObjectKey(v, g, s) <==> u == v && f == g
  {
    var prefix, key := ObjectKey(u, f, ""), ObjectKey(v, g, s);
    if u == v && f == g {
      assert key == prefix + s;
    } else if prefix <= key {
      var rest := key[|prefix|..];
      assert key == prefix + rest && prefix + rest == ObjectKey(u, f, rest);
      KeyIsInjective(u, f, rest, v, g, s);
    }
  }

  /* ---------- required documents ---------- */

  predicate Wanted(d: Definition, role: Role, country: string) {
    d.required && d.role == role && d.country == country
  }

  // SELECT document_type ... ORDER BY document_type, over a table in that order.
  function ListRequired(defs: seq<Definition>, role: Role, country: string): (types: seq<string>)
    ensures forall t :: t in types <==> exists d :: d in defs && Wanted(d, role, country) && d.docType == t
  {
    if defs == [] then []
    else
      var last := defs[|defs| - 1];
      ListRequired(defs[..|defs| - 1], role, country) + if Wanted(last, role, country) then [last.docType] else []
  }

  // document_type is the primary key.
  predicate DistinctTypes(defs: seq<Definition>) {
    forall i, j | 0 <= i < j < |defs| :: defs[i].docType != defs[j].docType
  }

  predicate NoRepeats<T(==)>(xs: seq<T>) {
    forall i, j | 0 <= i < j < |xs| :: xs[i] != xs[j]
  }

  lemma {:induction false} RequiredOnce(defs: seq<Definition>, role: Role, country: string)
    requires DistinctTypes(defs)
    ensures NoRepeats(ListRequired(defs, role, country))
  {
    if defs != [] {
      var init, last := defs[..|defs| - 1], defs[|defs| - 1];
      RequiredOnce(init, role, country);
      var types := ListRequired(init, role, country);
      forall k | 0 <= k < |types|
        ensures types[k] != last.docType
      {
        assert types[k] in types;
        var d :| d in init && Wanted(d, role, country) && d.docType == types[k];
      }
    }
  }

  // The country an init request names: IN unless given, two bytes.
  function CountryOf(raw: string): Option<string> {
    var c := Upper(TrimSpace(raw));
    if c == "" then Some("IN") else if ByteLen(c) == 2 then Some(c) else None
  }

  /* ---------- the calls ---------- */

  // RequireOnboardingAccess: why a request is turned away, if it is.
  function Gate(w: World, user: Uuid, claim: Role): Option<Reply> {
    if user !in w.users then Some(UserNotFound)
    else if w.users[user].role != claim then Some(RoleMismatch)
    else if !w.users[user].active then Some(NotActive)
    else if w.users[user].complete then Some(AlreadyCompleted)
    else None
  }

  function SetComplete(w: World, user: Uuid, complete: bool): World {
    if user in w.users then w.(users := w.users[user := w.users[user].(complete := complete)]) else w
  }

  function SetStatus(w: World, form: Uuid, status: Status): World {
    if form in w.forms then w.(forms := w.forms[form := w.forms[form].(status := status)]) else w
  }

  function InsertDoc(docs: map<DocId, Document>, user: Uuid, form: Uuid, docType: string)
    : Option<map<DocId, Document>>
  {
    if DocId(form, docType) in docs then None
    else Some(docs[DocId(form, docType) := Document(ObjectKey(user, form, docType), Awaiting)])
  }

  // One insert per type, in order; None when the unique index refuses one.
  function InsertDocs(docs: map<DocId, Document>, user: Uuid, form: Uuid, types: seq<string>)
    : Option<map<DocId, Document>>
  {
    if types == [] then Some(docs)
    else
      match InsertDocs(docs, user, form, types[..|types| - 1])
      case None => None
      case Some(d) => InsertDoc(d, user, form, types[|types| - 1])
  }

  function CreateDraft(w: World, user: Uuid, role: Role, form: Uuid, types: seq<string>): Option<World> {
    if form in w.forms then None
    else
      match InsertDocs(w.docs, user, form, types)
      case None => None
      case Some(docs) => Some(w.(forms := w.forms[form := Form(user, role, Draft)], docs := docs))
  }

  datatype Outcome = Outcome(world: World, reply: Reply)

  function Init(w: World, user: Uuid, claim: Role, role: Role, country: string, form: Uuid): Outcome {
    var c := CountryOf(country);
    if Gate(w, user, claim).Some? then Outcome(w, Gate(w, user, claim).value)
    else if role != claim then Outcome(w, RoleMismatch)
    else if c.None? then Outcome(w, Invalid)
    else
      var types := ListRequired(w.defs, role, c.value);
      if types == [] then Outcome(w, ConfigMissing)
      else
        match CreateDraft(w, user, role, form, types)
        case None => Outcome(w, Failed)
        case Some(v) => Outcome(v, Done)
  }

  predicate Owns(w: World, user: Uuid, form: Uuid) { form in w.forms && w.forms[form].user == user }

  function DocsOf(w: World, form: Uuid): set<DocId> { set k | k in w.docs && k.form == form }

  function Missing(w: World, form: Uuid): set<DocId> {
    set k | k in w.docs && k.form == form && w.docs[k].upload != Uploaded
  }

  function Submit(w: World, user: Uuid, claim: Role, form: Uuid): Outcome {
    if Gate(w, user, claim).Some? then Outcome(w, Gate(w, user, claim).value)
    else if form == "" then Outcome(w, Invalid)
    else if !Owns(w, user, form) then Outcome(w, FormNotFound)
    else if w.forms[form].status == Approved then Outcome(w, AlreadyApproved)
    else if w.forms[form].status == Pending then Outcome(w, AlreadySubmitted)
    else if |Missing(w, form)| > 0 then Outcome(w, UploadsIncomplete)
    else Outcome(SetComplete(SetStatus(w, form, Pending), user, true), Done)
  }

  function Resubmit(w: World, user: Uuid, claim: Role, form: Uuid): Outcome {
    if Gate(w, user, claim).Some? then Outcome(w, Gate(w, user, claim).value)
    else if form == "" then Outcome(w, Invalid)
    else if !Owns(w, user, form) then Outcome(w, FormNotFound)
    else if w.forms[form].status != Rejected then Outcome(w, NotRejected)
    else Outcome(SetComplete(SetStatus(w, form, Draft), user, false), Done)
  }

  function Hits(docs: map<DocId, Document>, key: string): set<DocId> {
    set k | k in docs && docs[k].s3Key == key && docs[k].upload != Uploaded
  }

  function MarkByKey(docs: map<DocId, Document>, key: string): map<DocId, Document> {
    map k | k in docs :: if docs[k].s3Key == key then docs[k].(upload := Uploaded) else docs[k]
  }

  // The public upload callback.
  function MarkUploaded(w: World, rawKey: string): Outcome {
    var key := TrimSpace(rawKey);
    if key == "" then Outcome(w, Invalid)
    else if |Hits(w.docs, key)| == 0 then Outcome(w, DocumentNotFound)
    else Outcome(w.(docs := MarkByKey(w.docs, key)), Done)
  }

  /* ---------- runs ---------- */

  // The last five are the environment: accounts, configuration and review. A
  // rejection clears the owner's flag.
  datatype Event =
    | InitCall(user: Uuid, claim: Role, role: Role, country: string, form: Uuid)
    | SubmitCall(user: Uuid, claim: Role, form: Uuid)
    | ResubmitCall(user: Uuid, claim: Role, form: Uuid)
    | UploadCall(key: string)
    | Enrol(user: Uuid, role: Role)
    | SetActive(user: Uuid, active: bool)
    | Configure(defs: seq<Definition>)
    | Approve(form: Uuid)
    | Reject(form: Uuid)

  function Environment(w: World, e: Event): World {
    match e
    case Enrol(u, role) => if u in w.users then w else w.(users := w.users[u := Account(role, true, false)])
    case SetActive(u, a) => if u in w.users then w.(users := w.users[u := w.users[u].(active := a)]) else w
    case Configure(defs) => if DistinctTypes(defs) then w.(defs := defs) else w
    case Approve(f) => if f in w.forms && w.forms[f].status == Pending then SetStatus(w, f, Approved) else w
    case Reject(f) =>
      if f in w.forms && w.forms[f].status == Pending then
        SetComplete(SetStatus(w, f, Rejected), w.forms[f].user, false)
      else w
    case _ => w
  }

  function Step(w: World, e: Event): Outcome {
    match e
    case InitCall(u, claim, role, country, f) => Init(w, u, claim, role, country, f)
    case SubmitCall(u, claim, f) => Submit(w, u, claim, f)
    case ResubmitCall(u, claim, f) => Resubmit(w, u, claim, f)
    case UploadCall(key) => MarkUploaded(w, key)
    case _ => Outcome(Environment(w, e), Done)
  }

  datatype Run = Boot | Next(before: Run, event: Event)

  const EMPTY := World(map[], [], map[], map[])

  function After(r: Run): World {
    match r case Boot => EMPTY case Next(before, e) => Step(After(before), e).world
  }
}
