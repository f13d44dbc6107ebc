/** The wallet calls of the client handlers: look the user up, then call the wallet. */
module Handlers {
  import opened Orders
  import opened Purses
  import opened Settlement
  import opened Wallets
  import opened UserStores

  /** One wallet changed, or none. */
  ghost predicate OnlyPurse(before: Ledger, user: string, p: Purse, after: Ledger) {
    after == before[user := p]
  }

  /** getUser(user).getWallet() for someone who is logged in. */
  method WalletOf(store: UserStore, user: string) returns (wallet: Wallet)
    requires store.Valid() && user in store.Accounts()
    modifies store
    ensures store.Valid() && store.WalletSet() == old(store.WalletSet())
    ensures user in store.users && wallet == store.users[user]
    ensures store.Accounts() == old(store.Accounts())
  {
    assert user in store.users;
    var found := store.Lookup(user);
    wallet := found.value;
  }

  /** DEPOSIT. */
  method DepositTo(store: UserStore, user: string, currency: string, amount: real) returns (r: Outcome)
    requires store.Valid() && user in store.Accounts()
    modifies store, store.WalletSet()
    ensures store.Valid() && store.WalletSet() == old(store.WalletSet())
    ensures var effect := Insert(old(store.Accounts())[user], currency, amount);
      OnlyPurse(old(store.Accounts()), user, effect.purse, store.Accounts()) && r == effect.outcome
  {
    var wallet := WalletOf(store, user);
    r := wallet.InsertCurrency(currency, amount);
    assert store.Accounts() == old(store.Accounts())[user := wallet.Contents()];
  }

  /** WITHDRAW. */
  method WithdrawFrom(store: UserStore, user: string, currency: string, amount: real) returns (r: Outcome)
    requires store.Valid() && user in store.Accounts()
    modifies store, store.WalletSet()
    ensures store.Valid() && store.WalletSet() == old(store.WalletSet())
    ensures var effect := Remove(old(store.Accounts())[user], currency, amount);
      OnlyPurse(old(store.Accounts()), user, effect.purse, store.Accounts()) && r == effect.outcome
  {
    var wallet := WalletOf(store, user);
    r := wallet.RemoveCurrency(currency, amount);
    assert store.Accounts() == old(store.Accounts())[user := wallet.Contents()];
  }

  /** The lock of ASK and BID. */
  method LockFor(store: UserStore, user: string, order: Order) returns (r: Outcome)
    requires store.Valid() && user in store.Accounts()
    modifies store, store.WalletSet()
    ensures store.Valid() && store.WalletSet() == old(store.WalletSet())
    ensures var effect := Fulfill(old(store.Accounts())[user], order);
      OnlyPurse(old(store.Accounts()), user, effect.purse, store.Accounts()) && r == effect.outcome
  {
    var wallet := WalletOf(store, user);
    r := wallet.FulfillOrder(order);
    assert store.Accounts() == old(store.Accounts())[user := wallet.Contents()];
  }

  /** The unlock of CANCEL. */
  method UnlockFor(store: UserStore, user: string, order: Order) returns (r: Outcome)
    requires store.Valid() && user in store.Accounts()
    modifies store, store.WalletSet()
    ensures store.Valid() && store.WalletSet() == old(store.WalletSet())
    ensures var effect := Cancel(old(store.Accounts())[user], order);
      OnlyPurse(old(store.Accounts()), user, effect.purse, store.Accounts()) && r == effect.outcome
  {
    var wallet := WalletOf(store, user);
    r := wallet.CancelOrder(order);
    assert store.Accounts() == old(store.Accounts())[user := wallet.Contents()];
  }
}
