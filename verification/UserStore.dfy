/** The users' wallets as objects. */
module UserStores {
  import opened Orders
  import opened Purses
  import opened Settlement
  import opened Wallets

  class UserStore {
    var users: map<string, Wallet>

    /** No two users share a wallet. */
    ghost predicate Valid()
      reads this
    {
      forall u, v | u in users && v in users && u != v :: users[u] != users[v]
    }

    ghost function WalletSet(): set<Wallet>
      reads this
    {
      set u | u in users :: users[u]
    }

    ghost function Accounts(): Ledger
      reads this, WalletSet()
    {
      map u | u in users :: users[u].Contents()
    }

    constructor ()
      ensures Valid() && Accounts() == map[]
    {
      users := map[];
    }

    /** getUser: None stands for the exception on an unknown name; "default" is created on demand. */
    method Lookup(user: string) returns (w: Option<Wallet>)
      requires Valid()
      modifies this
      ensures Valid() && fresh(WalletSet() - old(WalletSet())) && old(WalletSet()) <= WalletSet()
      ensures w.Some? <==> GetUser(old(Accounts()), user).Some?
      ensures w.Some? <==> user in old(users) || user == DEFAULT_USER
      ensures w.Some? ==> user in users && users[user] == w.value
      ensures Accounts() == GetUser(old(Accounts()), user).GetOr(old(Accounts()))
      ensures forall u | u in old(users) :: u in users && users[u] == old(users)[u]
      ensures user in old(users) ==> users == old(users)
    {
      if user in users {
        return Some(users[user]);
      }
      if user == DEFAULT_USER {
        var created := new Wallet();
        users := users[user := created];
        assert forall u | u in old(users) :: users[u] == old(users)[u] && users[u] in WalletSet();
        return Some(created);
      }
      return None;
    }

    /** addUser: a taken name leaves the users as they are. */
    method AddUser(user: string)
      requires Valid()
      modifies this
      ensures Valid() && fresh(WalletSet() - old(WalletSet()))
      ensures user in old(users) ==> Accounts() == old(Accounts())
      ensures user !in old(users) ==> Accounts() == old(Accounts())[user := EMPTY_PURSE]
    {
      if user in users {
        return;
      }
      var wallet := new Wallet();
      users := users[user := wallet];
      assert forall u | u in old(users) :: users[u] == old(users)[u];
    }
  }
}
