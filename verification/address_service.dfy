/** The address calls as the source writes them. */
module AddressService {
  import opened Transactions
  import opened AddressBook
  import opened AddressPages

  // internal/services/users/business/profile.go
  class Service {
    const repo: Database<seq<Address>>

    constructor ()
      ensures fresh(repo) && repo.tx.None? && repo.db == []
    {
      repo := new Database([]);
    }

    method GetAddresses(user: nat, rawPage: int, rawLimit: int) returns (reply: PageReply)
      requires Int64(rawPage) && Int64(rawLimit)
      ensures reply == AddressPages.GetAddresses(repo.Rows(), user, rawPage, rawLimit)
    {
      var page := rawPage;
      if page < 1 { page := 1; }
      var limit := rawLimit;
      if limit < 1 || limit > MAX_LIMIT { limit := DEFAULT_LIMIT; }
      var offset := Wrap64((page - 1) * limit);
      var total := CountActive(repo.Rows(), user);
      if offset < 0 { return ListFailed; }
      var rows := Slice(Listing(repo.Rows(), user), offset, limit);
      var addresses := [];
      for i := 0 to |rows|
        invariant addresses == rows[..i]
      {
        addresses := addresses + [rows[i]];
      }
      return Page(addresses, total, page, limit);
    }

    method CreateAddress(user: nat, details: Details, isDefault: bool, now: int) returns (reply: Reply)
      requires repo.tx.None?
      modifies repo
      ensures repo.tx.None?
      ensures (repo.db, reply) == DoCreate(old(repo.db), user, details, isDefault, now)
    {
      var count := CountActive(repo.Rows(), user);
      if count >= MAX_ADDRESSES { return LimitExceeded; }
      repo.BeginTx();
      if isDefault { repo.Exec(UnsetDefault(repo.Rows(), user)); }
      if !Fits(details) {
        repo.Rollback();
        return Failed;
      }
      var row := Address(user, Stored(details), isDefault, false, now);
      repo.Exec(repo.Rows() + [row]);
      repo.Commit();
      return Saved(row);
    }

    // The patch over the current columns, one column at a time.
    static method MergeInto(current: Details, patch: Patch) returns (merged: Details)
      ensures merged == Merge(current, patch)
    {
      var labelText := current.labelText;
      if patch.labelText.Some? { labelText := patch.labelText.value; }
      assert labelText == Or(patch.labelText, current.labelText);
      var line1 := current.line1;
      if patch.line1.Some? { line1 := patch.line1.value; }
      assert line1 == Or(patch.line1, current.line1);
      var line2 := current.line2;
      if patch.line2.Some? { line2 := patch.line2.value; }
      assert line2 == Or(patch.line2, current.line2);
      var area := current.area;
      if patch.area.Some? { area := patch.area.value; }
      assert area == Or(patch.area, current.area);
      var city := current.city;
      if patch.city.Some? { city := patch.city.value; }
      assert city == Or(patch.city, current.city);
      var state := current.state;
      if patch.state.Some? { state := patch.state.value; }
      assert state == Or(patch.state, current.state);
      var pincode := current.pincode;
      if patch.pincode.Some? { pincode := patch.pincode.value; }
      assert pincode == Or(patch.pincode, current.pincode);
      var latitude := current.latitude;
      if patch.latitude.Some? { latitude := patch.latitude; }
      assert latitude == OrElse(patch.latitude, current.latitude);
      var longitude := current.longitude;
      if patch.longitude.Some? { longitude := patch.longitude; }
      assert longitude == OrElse(patch.longitude, current.longitude);
      var contactName := current.contactName;
      if patch.contactName.Some? { contactName := patch.contactName.value; }
      assert contactName == Or(patch.contactName, current.contactName);
      var contactPhone := current.contactPhone;
      if patch.contactPhone.Some? { contactPhone := patch.contactPhone.value; }
      assert contactPhone == Or(patch.contactPhone, current.contactPhone);
      merged := Details(labelText, line1, line2, area, city, state, pincode, latitude, longitude,
                        contactName, contactPhone);
    }

    method UpdateAddress(user: nat, id: nat, patch: Patch) returns (reply: Reply)
      requires repo.tx.None?
      modifies repo
      ensures repo.tx.None?
      ensures (repo.db, reply) == DoUpdate(old(repo.db), user, id, patch)
    {
      if !Found(repo.Rows(), user, id) { return NotFound; }
      var current := repo.Rows()[id];
      var merged := MergeInto(current.details, patch);
      var isDefault := current.isDefault;
      if patch.isDefault.Some? { isDefault := patch.isDefault.value; }
      repo.BeginTx();
      if isDefault && !current.isDefault { repo.Exec(UnsetDefault(repo.Rows(), user)); }
      if !Fits(merged) {
        repo.Rollback();
        return Failed;
      }
      var row := repo.Rows()[id].(details := Stored(merged), isDefault := isDefault);
      repo.Exec(repo.Rows()[id := row]);
      repo.Commit();
      return Saved(row);
    }

    method DeleteAddress(user: nat, id: nat) returns (reply: Reply)
      requires repo.tx.None?
      modifies repo
      ensures repo.tx.None?
      ensures (repo.db, reply) == DoDelete(old(repo.db), user, id)
    {
      repo.BeginTx();
      if !Found(repo.Rows(), user, id) {
        repo.Rollback();
        return NotFound;
      }
      var row := repo.Rows()[id];
      repo.Exec(repo.Rows()[id := row.(deleted := true, isDefault := false)]);
      repo.Commit();
      return Deleted;
    }
  }
}
