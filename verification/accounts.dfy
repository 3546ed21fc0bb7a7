/** The persisted driver and passenger rows (the `drivers` and `passengers`
    tables), and the repository lookups the services use on them. A table is
    a sequence of rows in storage order; `findOne` returns the first match. */
module Accounts {
  import opened Util

  datatype DriverAccount = DriverAccount(
    id: string,
    phone: string,
    name: string,
    plate: string,
    inviteCode: string,
    winId: string,
    approval: string,        // PENDING, APPROVED, REJECTED, SUSPENDED
    currentStatus: string,   // OFFLINE, IDLE, BUSY
    rating: real,
    totalTrips: int,
    profilePic: Option<string>,
    authProvider: Option<string>,
    pinHash: Option<string>,
    providerId: Option<string>,
    email: Option<string>)

  datatype PassengerAccount = PassengerAccount(
    id: string,
    phone: string,
    name: string,
    points: int,
    totalRides: int,
    freeRides: int,
    authProvider: Option<string>,
    pinHash: Option<string>,
    providerId: Option<string>,
    email: Option<string>,
    avatar: Option<string>)

  function DriverWithPhone(phone: string): DriverAccount -> bool {
    (d: DriverAccount) => d.phone == phone
  }

  function DriverWithId(id: string): DriverAccount -> bool {
    (d: DriverAccount) => d.id == id
  }

  function PassengerWithPhone(phone: string): PassengerAccount -> bool {
    (p: PassengerAccount) => p.phone == phone
  }

  function PassengerWithId(id: string): PassengerAccount -> bool {
    (p: PassengerAccount) => p.id == id
  }

  /** Saving `d` would break the unique `phone` column: another row (a
      different primary key) already holds the same phone. */
  predicate DriverPhoneClash(repo: seq<DriverAccount>, d: DriverAccount) {
    exists i :: 0 <= i < |repo| && repo[i].phone == d.phone && repo[i].id != d.id
  }

  predicate PassengerPhoneClash(repo: seq<PassengerAccount>, p: PassengerAccount) {
    exists i :: 0 <= i < |repo| && repo[i].phone == p.phone && repo[i].id != p.id
  }

  /** `repository.save` of a new row: it replaces a row with the same primary
      key, or is appended. */
  function SaveDriver(repo: seq<DriverAccount>, d: DriverAccount): (r: seq<DriverAccount>)
    ensures Lookup(r, DriverWithId(d.id)) == Some(d)
    ensures forall i :: 0 <= i < |repo| && repo[i].id != d.id ==> repo[i] in r
    ensures forall i :: 0 <= i < |r| ==> r[i] == d || r[i] in repo
  {
    if Lookup(repo, DriverWithId(d.id)).Some? then
      var r := MapWhere(repo, DriverWithId(d.id), (_: DriverAccount) => d);
      var k := FindFirst(repo, DriverWithId(d.id)).value;
      assert DriverWithId(d.id)(r[k]);
      r
    else
      var r := repo + [d];
      assert DriverWithId(d.id)(r[|repo|]);
      assert forall i :: 0 <= i < |repo| ==> r[i] == repo[i];
      r
  }

  function SavePassenger(repo: seq<PassengerAccount>, p: PassengerAccount): (r: seq<PassengerAccount>)
    ensures Lookup(r, PassengerWithId(p.id)) == Some(p)
    ensures forall i :: 0 <= i < |repo| && repo[i].id != p.id ==> repo[i] in r
    ensures forall i :: 0 <= i < |r| ==> r[i] == p || r[i] in repo
  {
    if Lookup(repo, PassengerWithId(p.id)).Some? then
      var r := MapWhere(repo, PassengerWithId(p.id), (_: PassengerAccount) => p);
      var k := FindFirst(repo, PassengerWithId(p.id)).value;
      assert PassengerWithId(p.id)(r[k]);
      r
    else
      var r := repo + [p];
      assert PassengerWithId(p.id)(r[|repo|]);
      assert forall i :: 0 <= i < |repo| ==> r[i] == repo[i];
      r
  }
}
