/** What the wallet operations do to the wallets of every treasury, told wallet by wallet. */
module Wallets {
  import opened Outcomes
  import opened Policy
  import opened Store
  import opened GovernanceHandlers

  predicate Lists(s: Db, t: nat, w: string) { t < |s.treasuries| && w in s.treasuries[t].wallets }

  /** The wallet is listed in the treasury with the status given. */
  predicate Stands(s: Db, t: nat, w: string, status: WalletStatus) {
    Lists(s, t, w) && s.treasuries[t].wallets[w] == status
  }

  /** Apart from its wallets nothing of any treasury changes, and nothing else. */
  predicate OnlyWallets(s: Db, s': Db) {
    && |s'.treasuries| == |s.treasuries| && s' == s.(treasuries := s'.treasuries)
    && forall t | 0 <= t < |s.treasuries| :: s'.treasuries[t] == s.treasuries[t].(wallets := s'.treasuries[t].wallets)
  }

  /** A new wallet is listed as pending; a listed one keeps its status; all others stay. */
  lemma RegisteringLists(s: Db, user: nat, t: nat, w: string, t': nat, w': string, status: WalletStatus)
    requires RegisterWallet(s, user, t, w).result.Ok?
    ensures var s' := RegisterWallet(s, user, t, w).db;
            && t < |s.treasuries| && s.treasuries[t].owner == user && OnlyWallets(s, s')
            && (Stands(s', t', w', status) <==>
                Stands(s, t', w', status) || (t' == t && w' == w && !Lists(s, t, w) && status == WalletPending))
  {}

  /** Removing takes exactly the one wallet off the list, and so does the multisig revocation. */
  lemma RemovingUnlists(s: Db, user: nat, t: nat, w: string, accepted: Result<()>, t': nat, w': string,
                        status: WalletStatus)
    ensures var r := RemoveWallet(s, user, t, w);
            r.result.Ok? ==>
              && t < |s.treasuries| && s.treasuries[t].owner == user && OnlyWallets(s, r.db)
              && (Stands(r.db, t', w', status) <==> Stands(s, t', w', status) && !(t' == t && w' == w))
    ensures var r := RevokeMultisig(s, t, w, accepted);
            && (r.result.Ok? <==> accepted.Ok? && Lists(s, t, w))
            && (r.result.Ok? ==>
                  && OnlyWallets(s, r.db)
                  && (Stands(r.db, t', w', status) <==> Stands(s, t', w', status) && !(t' == t && w' == w)))
  {}

  /** Confirming makes exactly the one wallet active. */
  lemma ConfirmingActivates(s: Db, user: nat, t: nat, w: string, t': nat, w': string, status: WalletStatus)
    ensures var r := ConfirmMultisig(s, user, t, w);
            && (r.result.Ok? <==> t < |s.treasuries| && s.treasuries[t].owner == user && Lists(s, t, w))
            && (r.result.Ok? ==>
                  && OnlyWallets(s, r.db)
                  && (Stands(r.db, t', w', status) <==>
                      if t' == t && w' == w then status == WalletActive else Stands(s, t', w', status)))
  {}

  /** A proof of ownership makes the wallet active in every treasury that lists it, and those of them
      that waited for a wallet healthy; no other wallet and no other treasury changes. */
  lemma ProofActivatesEverywhere(s: Db, w: string, t: nat, w': string, status: WalletStatus)
    ensures var r := VerifyOwnership(s, Ok(()), w);
            && r.result.Ok? && |r.db.treasuries| == |s.treasuries| && r.db == s.(treasuries := r.db.treasuries)
            && (Stands(r.db, t, w', status) <==>
                if w' == w then Lists(s, t, w) && status == WalletActive else Stands(s, t, w', status))
            && (t < |s.treasuries| ==>
                  var (before, after) := (s.treasuries[t], r.db.treasuries[t]);
                  && after == before.(wallets := after.wallets, health := after.health)
                  && after.health == (if w in before.wallets && before.health == PendingWallet then Healthy
                                      else before.health))
  {}
}
