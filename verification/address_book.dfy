/** The address book: creating, updating and soft-deleting addresses, and what
    every sequential run of these calls keeps. Address ids are row positions. */
module AddressBook {
  import opened Common

  const MAX_ADDRESSES := 10

  // Columns stored as NULL when empty read back as empty.
  datatype Details = Details(labelText: string, line1: string, line2: string, area: string, city: string,
                             state: string, pincode: string, latitude: Option<real>, longitude: Option<real>,
                             contactName: string, contactPhone: string)

  datatype Address = Address(user: nat, details: Details, isDefault: bool, deleted: bool, createdAt: int)

  // None leaves a column as it is.
  datatype Patch = Patch(labelText: Option<string>, line1: Option<string>, line2: Option<string>, area: Option<string>,
                         city: Option<string>, state: Option<string>, pincode: Option<string>,
                         latitude: Option<real>, longitude: Option<real>, contactName: Option<string>,
                         contactPhone: Option<string>, isDefault: Option<bool>)

  datatype Reply = Saved(address: Address) | Deleted | LimitExceeded | NotFound | Failed

  function Or<T>(o: Option<T>, current: T): T {
    match o case None => current case Some(x) => x
  }

  function OrElse<T>(o: Option<T>, current: Option<T>): Option<T> { if o.Some? then o else current }

  function Merge(d: Details, p: Patch): Details {
    Details(Or(p.labelText, d.labelText), Or(p.line1, d.line1), Or(p.line2, d.line2), Or(p.area, d.area),
            Or(p.city, d.city), Or(p.state, d.state), Or(p.pincode, d.pincode),
            OrElse(p.latitude, d.latitude), OrElse(p.longitude, d.longitude),
            Or(p.contactName, d.contactName), Or(p.contactPhone, d.contactPhone))
  }

  // DECIMAL(9,6): rounded to six places, half away from zero, below a thousand.
  function Rounded(x: real): real {
    if x >= 0.0 then (x * 1000000.0 + 0.5).Floor as real / 1000000.0
    else -((-x * 1000000.0 + 0.5).Floor as real / 1000000.0)
  }

  predicate FitsDecimal(x: real) { -1000.0 < Rounded(x) < 1000.0 }

  // The values the columns hold for these details.
  function Stored(d: Details): Details {
    d.(latitude := if d.latitude.Some? then Some(Rounded(d.latitude.value)) else None,
       longitude := if d.longitude.Some? then Some(Rounded(d.longitude.value)) else None)
  }

  // Column widths, in characters.
  predicate Fits(d: Details) {
    && |d.labelText| <= 50 && |d.line1| <= 255 && |d.line2| <= 255 && |d.area| <= 100 && |d.city| <= 100
    && |d.state| <= 100 && |d.pincode| <= 10 && |d.contactName| <= 100 && |d.contactPhone| <= 15
    && (d.latitude.Some? ==> FitsDecimal(d.latitude.value)) && (d.longitude.Some? ==> FitsDecimal(d.longitude.value))
  }

  predicate LiveRow(a: Address, u: nat) { a.user == u && !a.deleted }

  predicate Found(t: seq<Address>, u: nat, id: nat) { id < |t| && LiveRow(t[id], u) }

  function CountActive(t: seq<Address>, u: nat): nat {
    if t == [] then 0
    else CountActive(t[..|t| - 1], u) + if LiveRow(t[|t| - 1], u) then 1 else 0
  }

  function UnsetDefault(t: seq<Address>, u: nat): seq<Address> {
    seq(|t|, i requires 0 <= i < |t| => if LiveRow(t[i], u) then t[i].(isDefault := false) else t[i])
  }

  datatype Call =
    | Create(user: nat, details: Details, isDefault: bool, now: int)
    | Update(user: nat, id: nat, patch: Patch)
    | Delete(user: nat, id: nat)

  function DoCreate(t: seq<Address>, u: nat, d: Details, isDefault: bool, now: int): (seq<Address>, Reply) {
    if CountActive(t, u) >= MAX_ADDRESSES then (t, LimitExceeded)
    else if !Fits(d) then (t, Failed)
    else
      var row := Address(u, Stored(d), isDefault, false, now);
      ((if isDefault then UnsetDefault(t, u) else t) + [row], Saved(row))
  }

  function DoUpdate(t: seq<Address>, u: nat, id: nat, p: Patch): (seq<Address>, Reply) {
    if !Found(t, u, id) then (t, NotFound)
    else if !Fits(Merge(t[id].details, p)) then (t, Failed)
    else
      var row := t[id].(details := Stored(Merge(t[id].details, p)), isDefault := Or(p.isDefault, t[id].isDefault));
      ((if row.isDefault && !t[id].isDefault then UnsetDefault(t, u) else t)[id := row], Saved(row))
  }

  function DoDelete(t: seq<Address>, u: nat, id: nat): (seq<Address>, Reply) {
    if !Found(t, u, id) then (t, NotFound)
    else (t[id := t[id].(deleted := true, isDefault := false)], Deleted)
  }

  function Step(t: seq<Address>, c: Call): (seq<Address>, Reply) {
    match c
    case Create(u, d, isDefault, now) => DoCreate(t, u, d, isDefault, now)
    case Update(u, id, p) => DoUpdate(t, u, id, p)
    case Delete(u, id) => DoDelete(t, u, id)
  }

  datatype Run = Boot | Next(before: Run, call: Call)

  function After(r: Run): seq<Address> {
    match r case Boot => [] case Next(before, c) => Step(After(before), c).0
  }

  /* ---------- counting live rows ---------- */

  lemma {:induction false} SameLiveSameCount(t: seq<Address>, v: seq<Address>, u: nat)
    requires |t| == |v| && forall i | 0 <= i < |t| :: LiveRow(t[i], u) == LiveRow(v[i], u)
    ensures CountActive(t, u) == CountActive(v, u)
  {
    if t != [] {
      SameLiveSameCount(t[..|t| - 1], v[..|v| - 1], u);
    }
  }

  lemma {:induction false} ReplaceCounts(t: seq<Address>, id: nat, a: Address, u: nat)
    requires id < |t|
    ensures CountActive(t[id := a], u) + (if LiveRow(t[id], u) then 1 else 0) ==
            CountActive(t, u) + if LiveRow(a, u) then 1 else 0
  {
    var n := |t| - 1;
    if id == n {
      assert t[id := a][..n] == t[..n];
    } else {
      assert t[id := a][..n] == t[..n][id := a];
      ReplaceCounts(t[..n], id, a, u);
    }
  }

  lemma AppendCounts(t: seq<Address>, a: Address, u: nat)
    ensures CountActive(t + [a], u) == CountActive(t, u) + if LiveRow(a, u) then 1 else 0
  {
    assert (t + [a])[..|t|] == t;
  }

  /** How a call changes the number of live addresses of a user: only a creation
      adds one, only a deletion takes one. */
  lemma StepCounts(t: seq<Address>, c: Call, u: nat)
    ensures CountActive(Step(t, c).0, u) ==
            CountActive(t, u)
            + (if c.Create? && c.user == u && Step(t, c).1.Saved? then 1 else 0)
            - (if c.Delete? && c.user == u && Step(t, c).1.Deleted? then 1 else 0)
  {
    match c
    case Create(x, d, isDefault, now) =>
      SameLiveSameCount(t, UnsetDefault(t, x), u);
      AppendCounts(if isDefault then UnsetDefault(t, x) else t, Address(x, Stored(d), isDefault, false, now), u);
    case Update(x, id, p) =>
      if Step(t, c).1.Saved? {
        var row := Step(t, c).1.address;
        SameLiveSameCount(t, UnsetDefault(t, x), u);
        ReplaceCounts(t, id, row, u);
        ReplaceCounts(UnsetDefault(t, x), id, row, u);
      }
    case Delete(x, id) =>
      if Found(t, x, id) { ReplaceCounts(t, id, t[id].(deleted := true, isDefault := false), u); }
  }

  /* ---------- the invariants ---------- */

  // At most one default per user, never a deleted one, at most ten live rows.
  ghost predicate Kept(t: seq<Address>) {
    && (forall i, j | 0 <= i < j < |t| :: !(t[i].isDefault && t[j].isDefault && t[i].user == t[j].user))
    && (forall i | 0 <= i < |t| :: t[i].deleted ==> !t[i].isDefault)
    && (forall u :: CountActive(t, u) <= MAX_ADDRESSES)
  }

  lemma StepKeepsDefaults(t: seq<Address>, c: Call)
    requires Kept(t)
    ensures var v := Step(t, c).0;
            && (forall i, j | 0 <= i < j < |v| :: !(v[i].isDefault && v[j].isDefault && v[i].user == v[j].user))
            && (forall i | 0 <= i < |v| :: v[i].deleted ==> !v[i].isDefault)
  {
  }

  lemma StepKeeps(t: seq<Address>, c: Call)
    requires Kept(t)
    ensures Kept(Step(t, c).0)
  {
    StepKeepsDefaults(t, c);
    forall u
      ensures CountActive(Step(t, c).0, u) <= MAX_ADDRESSES
    {
      StepCounts(t, c, u);
    }
  }

  /** Over every sequential run each user has at most one default and at most ten
      live addresses, and no deleted row is a default. */
  lemma {:induction false} BookIsKept(r: Run)
    ensures Kept(After(r))
  {
    if r.Next? {
      BookIsKept(r.before);
      StepKeeps(After(r.before), r.call);
    }
  }

  // The values the columns take.
  ghost predicate Within(d: Details) {
    && |d.labelText| <= 50 && |d.line1| <= 255 && |d.line2| <= 255 && |d.area| <= 100 && |d.city| <= 100
    && |d.state| <= 100 && |d.pincode| <= 10 && |d.contactName| <= 100 && |d.contactPhone| <= 15
    && (d.latitude.Some? ==> -1000.0 < d.latitude.value < 1000.0)
    && (d.longitude.Some? ==> -1000.0 < d.longitude.value < 1000.0)
  }

  // e is d with its coordinates rounded.
  ghost predicate RoundedFrom(d: Details, e: Details) {
    && e == d.(latitude := e.latitude, longitude := e.longitude)
    && e.latitude == (if d.latitude.Some? then Some(Rounded(d.latitude.value)) else None)
    && e.longitude == (if d.longitude.Some? then Some(Rounded(d.longitude.value)) else None)
  }

  /** A creation succeeds iff the user has fewer than ten live addresses and every
      value fits its column; the new row holds the values given, at the time given. */
  lemma CreateOutcome(t: seq<Address>, u: nat, d: Details, isDefault: bool, now: int, e: Details)
    requires RoundedFrom(d, e)
    ensures var (v, reply) := Step(t, Create(u, d, isDefault, now));
            if CountActive(t, u) >= 10 then reply == LimitExceeded && v == t
            else if !Within(e) then reply == Failed && v == t
            else
              && |v| == |t| + 1 && reply == Saved(v[|t|])
              && v[|t|] == Address(u, e, isDefault, false, now)
              && forall i | 0 <= i < |t| ::
                   v[i] == t[i].(isDefault := t[i].isDefault && !(isDefault && t[i].user == u && !t[i].deleted))
  {
    assert Stored(d) == e;
  }

  // Each column of a patched row is the patch's, if it names one, else the old.
  ghost predicate Patched(d: Details, p: Patch, e: Details) {
    && e.labelText == (if p.labelText.Some? then p.labelText.value else d.labelText)
    && e.line1 == (if p.line1.Some? then p.line1.value else d.line1)
    && e.line2 == (if p.line2.Some? then p.line2.value else d.line2)
    && e.area == (if p.area.Some? then p.area.value else d.area)
    && e.city == (if p.city.Some? then p.city.value else d.city)
    && e.state == (if p.state.Some? then p.state.value else d.state)
    && e.pincode == (if p.pincode.Some? then p.pincode.value else d.pincode)
    && e.latitude == (if p.latitude.Some? then Some(Rounded(p.latitude.value)) else d.latitude)
    && e.longitude == (if p.longitude.Some? then Some(Rounded(p.longitude.value)) else d.longitude)
    && e.contactName == (if p.contactName.Some? then p.contactName.value else d.contactName)
    && e.contactPhone == (if p.contactPhone.Some? then p.contactPhone.value else d.contactPhone)
  }

  // What an update does: row id of t becomes details e, or nothing changes.
  ghost predicate Updates(t: seq<Address>, u: nat, id: nat, p: Patch, e: Details, v: seq<Address>, reply: Reply) {
    if !(id < |t| && t[id].user == u && !t[id].deleted) then reply == NotFound && v == t
    else if !Within(e) then reply == Failed && v == t
    else
      var isDefault := if p.isDefault.Some? then p.isDefault.value else t[id].isDefault;
      && |v| == |t| && reply == Saved(v[id])
      && v[id] == Address(u, e, isDefault, false, t[id].createdAt)
      && forall i | 0 <= i < |t| && i != id ::
           v[i] == t[i].(isDefault := t[i].isDefault && !(isDefault && t[i].user == u && !t[i].deleted))
  }

  lemma UpdateAt(t: seq<Address>, u: nat, id: nat, p: Patch, e: Details)
    requires AllFit(t) && Kept(t) && (id < |t| ==> Patched(t[id].details, p, e))
    ensures Updates(t, u, id, p, e, Step(t, Update(u, id, p)).0, Step(t, Update(u, id, p)).1)
  {
    if id < |t| { PatchedIsStored(t[id].details, p, e); }
  }

  lemma MergeIsPatched(d: Details, p: Patch)
    requires Stored(d) == d
    ensures Patched(d, p, Stored(Merge(d, p)))
  {
    assert d.latitude.Some? ==> Rounded(d.latitude.value) == d.latitude.value;
    assert d.longitude.Some? ==> Rounded(d.longitude.value) == d.longitude.value;
  }

  lemma PatchedOneWay(d: Details, p: Patch, e: Details, f: Details)
    requires Patched(d, p, e) && Patched(d, p, f)
    ensures e == f
  {
  }

  lemma FitsIsWithin(d: Details)
    ensures Fits(d) == Within(Stored(d))
  {
  }

  lemma PatchedIsStored(d: Details, p: Patch, e: Details)
    requires Stored(d) == d && Patched(d, p, e)
    ensures Stored(Merge(d, p)) == e && Fits(Merge(d, p)) == Within(e)
  {
    MergeIsPatched(d, p);
    PatchedOneWay(d, p, e, Stored(Merge(d, p)));
    FitsIsWithin(Merge(d, p));
  }

  /** In every reachable book an update is saved iff the address is the user's live
      one and the patched values fit; then each column it names holds its own value,
      every other is kept, and of the other rows at most a default flag is cleared. */
  lemma UpdateOutcome(r: Run, u: nat, id: nat, p: Patch, e: Details)
    requires id < |After(r)| ==> Patched(After(r)[id].details, p, e)
    ensures Updates(After(r), u, id, p, e, Step(After(r), Update(u, id, p)).0, Step(After(r), Update(u, id, p)).1)
  {
    EveryRowFits(r);
    BookIsKept(r);
    UpdateAt(After(r), u, id, p, e);
  }

  /** A deletion answers Deleted iff the row named is the user's and live; then that
      row is deleted and no default, otherwise as it was, and no other row changes. */
  lemma DeleteOutcome(t: seq<Address>, u: nat, id: nat)
    ensures var (v, reply) := Step(t, Delete(u, id));
            if id < |t| && t[id].user == u && !t[id].deleted then
              && reply == Deleted && |v| == |t|
              && v[id] == Address(u, t[id].details, false, true, t[id].createdAt)
              && forall i | 0 <= i < |t| && i != id :: v[i] == t[i]
            else reply == NotFound && v == t
  {
  }

  // The nearest count of millionths.
  function Millionths(x: real): int {
    if x >= 0.0 then (x * 1000000.0 + 0.5).Floor else -((-x * 1000000.0 + 0.5).Floor)
  }

  lemma NearestMillionth(x: real)
    ensures -0.5 <= Millionths(x) as real - x * 1000000.0 <= 0.5
    ensures Rounded(x) * 1000000.0 == Millionths(x) as real
  {
    var y := if x >= 0.0 then x * 1000000.0 else -x * 1000000.0;
    var n := (y + 0.5).Floor;
    assert n as real <= y + 0.5 < n as real + 1.0;
    var z := n as real / 1000000.0;
    assert z * 1000000.0 == n as real;
    assert x < 0.0 ==> (-z) * 1000000.0 == -(n as real);
  }

  /** A stored coordinate is a whole number of millionths, within half of one of the
      coordinate given. */
  lemma RoundedIsNearest(x: real) returns (n: int)
    ensures Rounded(x) * 1000000.0 == n as real
    ensures -0.5 <= Rounded(x) * 1000000.0 - x * 1000000.0 <= 0.5
  {
    NearestMillionth(x);
    n := Millionths(x);
  }

  /** No call touches another user's rows, or a deleted row, or who owns a row and
      since when; rows never go away; a refusal changes nothing. */
  lemma OthersUntouched(t: seq<Address>, c: Call)
    ensures var v := Step(t, c).0;
            && |t| <= |v|
            && (forall i | 0 <= i < |t| :: t[i].user != c.user || t[i].deleted ==> v[i] == t[i])
            && (forall i | 0 <= i < |t| :: v[i].user == t[i].user && v[i].createdAt == t[i].createdAt)
            && (forall i | |t| <= i < |v| :: v[i].user == c.user)
            && (!Step(t, c).1.Saved? && !Step(t, c).1.Deleted? ==> v == t)
  {
  }

  /** The saved row is what the call asked for, and making it the default takes
      the flag from the user's previous default and nothing else from anyone. */
  lemma SavedAsAsked(t: seq<Address>, c: Call)
    requires Kept(t) && !c.Delete? && Step(t, c).1.Saved?
    ensures var v := Step(t, c).0;
            var id := if c.Create? then |t| else c.id;
            && id < |v| && v[id] == Step(t, c).1.address && LiveRow(v[id], c.user)
            && (c.Create? ==> v[id].details == Stored(c.details) && v[id].isDefault == c.isDefault)
            && (c.Update? ==> v[id].details == Stored(Merge(t[id].details, c.patch)))
            && (c.Update? ==> v[id].isDefault == Or(c.patch.isDefault, t[id].isDefault))
            && (v[id].isDefault ==> forall i | 0 <= i < |v| && v[i].user == c.user && v[i].isDefault :: i == id)
            && (forall i | 0 <= i < |t| && i != id ::
                  v[i] == t[i].(isDefault := t[i].isDefault && !(v[id].isDefault && t[i].user == c.user)))
  {
    StepKeeps(t, c);
  }

  lemma RoundedOnce(x: real)
    ensures Rounded(Rounded(x)) == Rounded(x)
  {
    var n := if x >= 0.0 then (x * 1000000.0 + 0.5).Floor else (-x * 1000000.0 + 0.5).Floor;
    assert n >= 0 && (n as real + 0.5).Floor == n;
    var y := n as real / 1000000.0;
    assert y * 1000000.0 == n as real;
  }

  lemma StoredOnce(d: Details)
    ensures Stored(Stored(d)) == Stored(d)
    ensures Fits(d) ==> Fits(Stored(d))
  {
    if d.latitude.Some? { RoundedOnce(d.latitude.value); }
    if d.longitude.Some? { RoundedOnce(d.longitude.value); }
  }

  ghost predicate AllFit(t: seq<Address>) {
    forall i | 0 <= i < |t| :: Fits(t[i].details) && Stored(t[i].details) == t[i].details
  }

  lemma StepKeepsFit(t: seq<Address>, c: Call)
    requires AllFit(t)
    ensures AllFit(Step(t, c).0)
  {
    if c.Create? { StoredOnce(c.details); }
    if c.Update? && Found(t, c.user, c.id) { StoredOnce(Merge(t[c.id].details, c.patch)); }
  }

  lemma {:induction false} EveryRowFits(r: Run)
    ensures AllFit(After(r))
  {
    if r.Next? {
      EveryRowFits(r.before);
      StepKeepsFit(After(r.before), r.call);
    }
  }

  const NO_CHANGE := Patch(None, None, None, None, None, None, None, None, None, None, None, None)

  /** In every reachable book an update that names no column succeeds on a found
      address and changes nothing, coordinates included; applying a patch twice is
      applying it once. */
  lemma PatchesSettle(r: Run, u: nat, id: nat, p: Patch)
    requires Found(After(r), u, id)
    ensures Step(After(r), Update(u, id, NO_CHANGE)) == (After(r), Saved(After(r)[id]))
    ensures var once := Step(After(r), Update(u, id, p));
            once.1.Saved? ==> Step(once.0, Update(u, id, p)) == once
  {
    EveryRowFits(r);
    SettlesAt(After(r), u, id, p);
  }

  lemma SettlesAt(t: seq<Address>, u: nat, id: nat, p: Patch)
    requires Found(t, u, id) && AllFit(t)
    ensures DoUpdate(t, u, id, NO_CHANGE) == (t, Saved(t[id]))
    ensures var once := DoUpdate(t, u, id, p);
            once.1.Saved? ==> DoUpdate(once.0, u, id, p) == once
  {
    assert Merge(t[id].details, NO_CHANGE) == t[id].details;
    assert t[id := t[id]] == t;
    var once := DoUpdate(t, u, id, p);
    if once.1.Saved? {
      var merged := Merge(t[id].details, p);
      StoredOnce(merged);
      assert once.0[id] == once.1.address;
      MergedTwice(t[id].details, p);
      assert once.0[id := once.0[id]] == once.0;
    }
  }

  lemma MergedTwice(d: Details, p: Patch)
    requires Fits(Merge(d, p))
    ensures Fits(Merge(Stored(Merge(d, p)), p))
    ensures Stored(Merge(Stored(Merge(d, p)), p)) == Stored(Merge(d, p))
  {
    StoredOnce(Merge(d, p));
  }

  // Successful creations, less successful deletions, by u.
  function Balance(r: Run, u: nat): int {
    match r
    case Boot => 0
    case Next(before, c) =>
      Balance(before, u)
      + (if c.Create? && c.user == u && Step(After(before), c).1.Saved? then 1 else 0)
      - (if c.Delete? && c.user == u && Step(After(before), c).1.Deleted? then 1 else 0)
  }

  /** A user's live addresses are the ones created less the ones deleted. */
  lemma {:induction false} LiveIsCreatedLessDeleted(r: Run, u: nat)
    ensures CountActive(After(r), u) == Balance(r, u)
  {
    if r.Next? {
      LiveIsCreatedLessDeleted(r.before, u);
      StepCounts(After(r.before), r.call, u);
    }
  }
}
