/** An opened store: one of the two backends behind the one interface its users call. */
module Handles {
  import opened Wrappers
  import opened Store
  import opened Sqlite
  import opened Idb

  datatype Handle = Sql(sql: SqliteStore) | Indexed(idb: IdbStore)
  {
    ghost function Objects(): set<object> {
      match this
      case Sql(s) => {s}
      case Indexed(i) => {i}
    }

    ghost predicate Valid()
      reads Objects()
    {
      match this
      case Sql(s) => s.Valid()
      case Indexed(i) => i.Valid()
    }

    function OpenedWith(): Config {
      match this
      case Sql(s) => s.config
      case Indexed(i) => i.config
    }

    ghost function Contents(): Db
      reads Objects()
    {
      match this
      case Sql(s) => s.Contents()
      case Indexed(i) => i.Contents()
    }

    method GetUser() returns (user: Option<UserRow>)
      requires Valid()
      ensures user.None? <==> Contents().users == map[]
      ensures user.Some? ==> exists id :: id in Contents().users && Contents().users[id] == user.value
      ensures OneIdentity(Contents().users) ==> user == TheUser(Contents().users)
    {
      match this {
        case Sql(s) => user := s.GetUser();
        case Indexed(i) => user := i.GetUser();
      }
    }

    /** On proper calls both backends merge the row in the same way; on others only the table of users is touched. */
    method UpsertUser(user: UserRow)
      requires Valid()
      modifies Objects()
      ensures Valid()
      ensures Contents() == old(Contents()).(users := Contents().users)
      ensures Sound(old(Contents())) && Proper(old(Contents()), Call.UpsertUser(user)) ==>
        Contents() == Step(OpenedWith(), old(Contents()), Call.UpsertUser(user)).0
    {
      match this {
        case Sql(s) => s.UpsertUser(user);
        case Indexed(i) => i.UpsertUser(user);
      }
    }

    method ReserveNextTradeIndex(noneBase: int, identity: string, now: int) returns (nextIndex: int)
      requires Valid()
      modifies Objects()
      ensures Valid()
      ensures Contents() == old(Contents()).(users := Contents().users)
      ensures Sound(old(Contents())) && old(Contents()).users != map[] ==>
        (Contents(), Reserved(nextIndex)) == Step(OpenedWith(), old(Contents()), Reserve(noneBase, identity, now))
    {
      match this {
        case Sql(s) => nextIndex := s.ReserveNextTradeIndex(noneBase, identity, now);
        case Indexed(i) => nextIndex := i.ReserveNextTradeIndex(noneBase, identity, now);
      }
    }

    method SaveOrder(o: SaveOrderInput, nonce: nat) returns (inserted: bool)
      requires Valid()
      modifies Objects()
      ensures Valid()
      ensures (Contents(), Inserted(inserted)) == Step(OpenedWith(), old(Contents()), Call.SaveOrder(o, nonce))
    {
      match this {
        case Sql(s) => inserted := s.SaveOrder(o, nonce);
        case Indexed(i) => inserted := i.SaveOrder(o, nonce);
      }
    }

    method UpdateOrderStatus(id: string, status: string)
      requires Valid()
      modifies Objects()
      ensures Valid()
      ensures Contents() == Step(OpenedWith(), old(Contents()), Call.UpdateOrderStatus(id, status)).0
    {
      match this {
        case Sql(s) => s.UpdateOrderStatus(id, status);
        case Indexed(i) => i.UpdateOrderStatus(id, status);
      }
    }

    method GetOrder(id: string) returns (reply: Reply)
      requires Valid()
      ensures reply == Step(OpenedWith(), Contents(), Call.GetOrder(id)).1
    {
      match this {
        case Sql(s) => reply := s.GetOrder(id);
        case Indexed(i) => reply := i.GetOrder(id);
      }
    }

    method UpdateDisputeId(id: string, disputeId: string)
      requires Valid()
      modifies Objects()
      ensures Valid()
      ensures Contents() == Step(OpenedWith(), old(Contents()), Call.UpdateDisputeId(id, disputeId)).0
    {
      match this {
        case Sql(s) => s.UpdateDisputeId(id, disputeId);
        case Indexed(i) => i.UpdateDisputeId(id, disputeId);
      }
    }

    method UpdateSolverChat(id: string, solverPubkey: string, sharedKey: string, nonce: nat)
      requires Valid()
      modifies Objects()
      ensures Valid()
      ensures Contents() == Step(OpenedWith(), old(Contents()),
        Call.UpdateSolverChat(id, solverPubkey, sharedKey, nonce)).0
    {
      match this {
        case Sql(s) => s.UpdateSolverChat(id, solverPubkey, sharedKey, nonce);
        case Indexed(i) => i.UpdateSolverChat(id, solverPubkey, sharedKey, nonce);
      }
    }
  }
}
