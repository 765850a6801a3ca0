/** The `CheckNonce` transaction extension: pool tags from `validate`, nonce bumps from `prepare`. */
module Nonces {
  import opened Words
  import opened Vectors
  import opened Motions

  datatype AccountInfo = AccountInfo(nonce: U32, providers: U32, sufficients: U32)

  type Accounts = map<Account, AccountInfo>

  datatype Tx = Tx(signer: Option<Account>, nonce: U32, paysFee: bool)

  datatype Tag = Tag(who: Account, nonce: U32)

  datatype Validity = Validity(required: seq<Tag>, provided: seq<Tag>)

  datatype Val = CheckNonce(who: Account, nonce: U32) | Refund

  datatype Invalid = Payment | Stale | Future

  /** Storage reads of unknown accounts give the default entry. */
  function Lookup(accounts: Accounts, who: Account): AccountInfo {
    if who in accounts then accounts[who] else AccountInfo(0, 0, 0)
  }

  function Validate(accounts: Accounts, tx: Tx): Result<(Validity, Val), Invalid> {
    match tx.signer
    case None => Success((Validity([], []), Refund))
    case Some(who) =>
      var account := Lookup(accounts, who);
      if tx.paysFee && account.providers == 0 && account.sufficients == 0 then Failure(Payment)
      else if tx.nonce < account.nonce then Failure(Stale)
      else
        var required := if account.nonce < tx.nonce then [Tag(who, SatSub(tx.nonce, 1))] else [];
        Success((Validity(required, [Tag(who, tx.nonce)]), CheckNonce(who, account.nonce)))
  }

  /** The nonce addition wraps, as unchecked machine addition does. */
  function Prepare(accounts: Accounts, tx: Tx, val: Val): Result<Accounts, Invalid> {
    match val
    case Refund => Success(accounts)
    case CheckNonce(who, nonce) =>
      if tx.nonce > nonce then Failure(Future)
      else Success(accounts[who := Lookup(accounts, who).(nonce := AsU32(nonce + 1))])
  }

  /** `validate` then `prepare`, as a block applies them. */
  function Submit(accounts: Accounts, tx: Tx): Result<Accounts, Invalid> {
    match Validate(accounts, tx)
    case Failure(e) => Failure(e)
    case Success((_, val)) => Prepare(accounts, tx, val)
  }

  /** frame_system's account storage, with the extension's two steps on it. */
  class System {
    var accounts: Accounts

    method ValidateTx(tx: Tx) returns (r: Result<(Validity, Val), Invalid>)
      ensures r == Validate(accounts, tx)
    {
      if tx.signer == None { return Success((Validity([], []), Refund)); }
      var who := tx.signer.value;
      var account := Lookup(accounts, who);
      if tx.paysFee && account.providers == 0 && account.sufficients == 0 { return Failure(Payment); }
      if tx.nonce < account.nonce { return Failure(Stale); }
      var required := [];
      if account.nonce < tx.nonce { required := [Tag(who, SatSub(tx.nonce, 1))]; }
      return Success((Validity(required, [Tag(who, tx.nonce)]), CheckNonce(who, account.nonce)));
    }

    method PrepareTx(tx: Tx, val: Val) returns (r: Result<(), Invalid>)
      modifies this
      ensures match Prepare(old(accounts), tx, val)
              case Failure(e) => r == Failure(e) && accounts == old(accounts)
              case Success(after) => r == Success(()) && accounts == after
    {
      if val.Refund? { return Success(()); }
      var nonce: nat := val.nonce;
      if tx.nonce > nonce { return Failure(Future); }
      nonce := AsU32(nonce + 1);
      accounts := accounts[val.who := Lookup(accounts, val.who).(nonce := nonce)];
      return Success(());
    }

    /** A whole block: transactions in order, rejected ones leaving no trace. */
    method ApplyBlock(txs: seq<Tx>) returns (included: seq<Tx>)
      modifies this
      ensures (accounts, included) == Process(old(accounts), txs)
    {
      included := [];
      for k := 0 to |txs|
        invariant (accounts, included) == Process(old(accounts), txs[..k])
      {
        assert txs[..k + 1][..k] == txs[..k];
        var v := ValidateTx(txs[k]);
        if v.Success? {
          var p := PrepareTx(txs[k], v.value.1);
          if p.Success? { included := included + [txs[k]]; }
        }
      }
      assert txs[..|txs|] == txs;
    }
  }

  // ----- replay protection

  /** Processes a list, skipping what is rejected: the final accounts and the accepted transactions. */
  function Process(accounts: Accounts, txs: seq<Tx>): (Accounts, seq<Tx>) {
    if |txs| == 0 then (accounts, [])
    else
      var (before, accepted) := Process(accounts, txs[..|txs| - 1]);
      match Submit(before, txs[|txs| - 1])
      case Failure(_) => (before, accepted)
      case Success(after) => (after, accepted + [txs[|txs| - 1]])
  }

  /** The nonces of `who`'s transactions, in order. */
  function NoncesOf(txs: seq<Tx>, who: Account): seq<U32> {
    if |txs| == 0 then []
    else
      var rest, last := NoncesOf(txs[..|txs| - 1], who), txs[|txs| - 1];
      if last.signer == Some(who) then rest + [last.nonce] else rest
  }

  /** The account can pay for its storage entry, or need not. */
  predicate Paid(accounts: Accounts, who: Account, tx: Tx) {
    tx.paysFee ==> Lookup(accounts, who).providers > 0 || Lookup(accounts, who).sufficients > 0
  }

  /** The pool takes exactly the unsigned and the paid, not yet used transactions; an unpaid one is a Payment error and
      a paid, used one Stale. A signed one provides its own tag, requires the one before it unless it is next, and hands
      on the account's current nonce. */
  lemma ValidateExactly(accounts: Accounts, tx: Tx)
    ensures tx.signer.None? ==> Validate(accounts, tx) == Success((Validity([], []), Refund))
    ensures tx.signer.Some? ==>
              var who, r := tx.signer.value, Validate(accounts, tx);
              var nonce := Lookup(accounts, who).nonce;
              && (r.Success? <==> Paid(accounts, who, tx) && tx.nonce >= nonce)
              && (r == Failure(Payment) <==> !Paid(accounts, who, tx))
              && (r == Failure(Stale) <==> Paid(accounts, who, tx) && tx.nonce < nonce)
              && (r.Success? ==>
                    && r.value.1 == CheckNonce(who, nonce) && r.value.0.provided == [Tag(who, tx.nonce)]
                    && r.value.0.required == if tx.nonce == nonce then [] else [Tag(who, tx.nonce - 1)])
  {
  }

  /** `prepare` refuses exactly a nonce above the one it was handed, as Future; otherwise it stores the next nonce for
      that account and changes nothing else of any account. A refund changes nothing. */
  lemma PrepareExactly(accounts: Accounts, tx: Tx, val: Val, a: Account)
    ensures val.Refund? ==> Prepare(accounts, tx, val) == Success(accounts)
    ensures val.CheckNonce? ==>
              var r, before := Prepare(accounts, tx, val), Lookup(accounts, a);
              && (tx.nonce > val.nonce ==> r == Failure(Future))
              && (tx.nonce <= val.nonce ==>
                    r.Success? && Lookup(r.value, a)
                      == if a != val.who then before
                         else before.(nonce := if val.nonce == U32_MAX then 0 else val.nonce + 1))
  {
    if val.CheckNonce? && val.nonce < U32_MAX { CastSmall(val.nonce + 1); }
  }

  /** A signed transaction goes through exactly at the account's current nonce, if the account can pay for its entry;
      otherwise the error says why not. */
  lemma SubmitExactly(accounts: Accounts, tx: Tx)
    ensures tx.signer.None? ==> Submit(accounts, tx) == Success(accounts)
    ensures tx.signer.Some? ==>
              var who, r := tx.signer.value, Submit(accounts, tx);
              var nonce := Lookup(accounts, who).nonce;
              && (r.Success? <==> Paid(accounts, who, tx) && tx.nonce == nonce)
              && (r == Failure(Payment) <==> !Paid(accounts, who, tx))
              && (r == Failure(Stale) <==> Paid(accounts, who, tx) && tx.nonce < nonce)
              && (r == Failure(Future) <==> Paid(accounts, who, tx) && tx.nonce > nonce)
  {
  }

  /** An account that has no entry yet starts at nonce 0 and can pay for nothing. */
  lemma UnknownAccountsStartAtZero(accounts: Accounts, who: Account, nonce: U32)
    requires who !in accounts
    ensures Submit(accounts, Tx(Some(who), nonce, true)) == Failure(Payment)
    ensures Submit(accounts, Tx(Some(who), nonce, false)).Success? <==> nonce == 0
  {
  }

  /** Block application accepts each transaction exactly if it goes through where it stands, skipping the others. */
  lemma ProcessAcceptsExactly(accounts: Accounts, txs: seq<Tx>, tx: Tx)
    ensures var (before, accepted) := Process(accounts, txs);
            var goes := tx.signer.Some? ==>
                          Paid(before, tx.signer.value, tx) && tx.nonce == Lookup(before, tx.signer.value).nonce;
            && Process(accounts, txs + [tx]).1 == (if goes then accepted + [tx] else accepted)
            && (if goes then Submit(before, tx) == Success(Process(accounts, txs + [tx]).0)
                else Process(accounts, txs + [tx]).0 == before)
  {
    assert (txs + [tx])[..|txs|] == txs;
    SubmitExactly(Process(accounts, txs).0, tx);
  }

  lemma SubmitBumpsSigner(accounts: Accounts, tx: Tx, who: Account)
    requires Submit(accounts, tx).Success?
    ensures var account := Lookup(accounts, who);
            Lookup(Submit(accounts, tx).value, who) ==
              if tx.signer == Some(who) then account.(nonce := AsU32(account.nonce + 1)) else account
    ensures tx.signer == Some(who) ==> tx.nonce == Lookup(accounts, who).nonce
  {
  }

  lemma CastSucceeds(n: nat)
    ensures AsU32(AsU32(n) + 1) == AsU32(n + 1)
  {
  }

  /** The nonces count up from `start` without a gap, modulo 2^32. */
  ghost predicate CountsUp(nonces: seq<U32>, start: nat) {
    forall k :: 0 <= k < |nonces| ==> nonces[k] == AsU32(start + k)
  }

  /** `accepted` account for the whole change of `who`'s entry from `start` to what `after` holds. */
  ghost predicate Accounted(start: AccountInfo, after: Accounts, accepted: seq<Tx>, who: Account) {
    var nonces := NoncesOf(accepted, who);
    CountsUp(nonces, start.nonce) && Lookup(after, who) == start.(nonce := AsU32(start.nonce + |nonces|))
  }

  lemma AccountedStep(start: AccountInfo, before: Accounts, accepted: seq<Tx>, tx: Tx, who: Account)
    requires Accounted(start, before, accepted, who) && Submit(before, tx).Success?
    ensures Accounted(start, Submit(before, tx).value, accepted + [tx], who)
  {
    SubmitBumpsSigner(before, tx, who);
    CastSucceeds(start.nonce + |NoncesOf(accepted, who)|);
    assert (accepted + [tx])[..|accepted|] == accepted;
  }

  /** Whatever is submitted, each account's accepted nonces count up from its initial nonce without a gap (modulo 2^32),
      and nothing else of any account changes. */
  lemma {:induction false} AcceptedNoncesCountUp(accounts: Accounts, txs: seq<Tx>, who: Account)
    ensures var (after, accepted) := Process(accounts, txs); Accounted(Lookup(accounts, who), after, accepted, who)
  {
    if |txs| > 0 {
      var front, last := txs[..|txs| - 1], txs[|txs| - 1];
      var (before, accepted) := Process(accounts, front);
      AcceptedNoncesCountUp(accounts, front, who);
      if Submit(before, last).Success? { AccountedStep(Lookup(accounts, who), before, accepted, last, who); }
    }
  }

  lemma WrapDistinct(start: nat, i: nat, j: nat)
    requires i < j < i + U32_COUNT
    ensures AsU32(start + i) != AsU32(start + j)
  {
  }

  lemma CountingNoDup(nonces: seq<U32>, start: nat)
    requires CountsUp(nonces, start)
    ensures NoDup(nonces) <==> |nonces| <= U32_COUNT
  {
    if |nonces| > U32_COUNT {
      assert nonces[0] == AsU32(start) == AsU32(start + U32_COUNT) == nonces[U32_COUNT];
    } else {
      forall i, j | 0 <= i < j < |nonces| ensures nonces[i] != nonces[j] {
        WrapDistinct(start, i, j);
      }
    }
  }

  /** No (account, nonce) pair is accepted twice exactly as long as the account has had at most 2^32 acceptances. */
  lemma ReplayProtection(accounts: Accounts, txs: seq<Tx>, who: Account)
    ensures var nonces := NoncesOf(Process(accounts, txs).1, who);
            NoDup(nonces) <==> |nonces| <= U32_COUNT
  {
    AcceptedNoncesCountUp(accounts, txs, who);
    CountingNoDup(NoncesOf(Process(accounts, txs).1, who), Lookup(accounts, who).nonce);
  }

  lemma {:induction false} AcceptedAreSubmitted(accounts: Accounts, txs: seq<Tx>, who: Account)
    ensures |NoncesOf(Process(accounts, txs).1, who)| <= |NoncesOf(txs, who)|
  {
    if |txs| > 0 {
      var front, last := txs[..|txs| - 1], txs[|txs| - 1];
      AcceptedAreSubmitted(accounts, front, who);
      var accepted := Process(accounts, front).1;
      assert (accepted + [last])[..|accepted|] == accepted;
    }
  }

  /** A fee-free transaction of `who` at the nonce that `txs` leave. */
  function Next(accounts: Accounts, txs: seq<Tx>, who: Account): Tx {
    Tx(Some(who), AsU32(Expected(accounts, txs, who)), false)
  }

  /** `n` fee-free transactions of `who`, each at the nonce the ones before leave. */
  function Chain(accounts: Accounts, who: Account, n: nat): (txs: seq<Tx>)
    ensures |txs| == n
  {
    if n == 0 then []
    else
      var front := Chain(accounts, who, n - 1);
      front + [Next(accounts, front, who)]
  }

  lemma NextIsAccepted(accounts: Accounts, txs: seq<Tx>, who: Account)
    requires AllAccepted(accounts, txs)
    ensures Submit(Process(accounts, txs).0, Next(accounts, txs, who)).Success?
  {
    AcceptedNoncesCountUp(accounts, txs, who);
    SubmitExactly(Process(accounts, txs).0, Next(accounts, txs, who));
  }

  /** The whole chain is accepted, however often its nonces go round. */
  lemma {:induction false} ChainIsAccepted(accounts: Accounts, who: Account, n: nat)
    ensures AllAccepted(accounts, Chain(accounts, who, n))
    ensures |NoncesOf(Chain(accounts, who, n), who)| == n
  {
    if n > 0 {
      var front, all := Chain(accounts, who, n - 1), Chain(accounts, who, n);
      ChainIsAccepted(accounts, who, n - 1);
      NextIsAccepted(accounts, front, who);
      assert all[..n - 1] == front && all[..n] == all;
      AcceptedSplit(accounts, all, n - 1);
    }
  }

  /** Whatever is submitted, no (account, nonce) pair is accepted twice: guaranteed exactly for up to 2^32 submissions
      of the account. */
  lemma ReplayProtectionExactly(accounts: Accounts, who: Account, n: nat)
    ensures (forall txs :: |NoncesOf(txs, who)| <= n ==> NoDup(NoncesOf(Process(accounts, txs).1, who)))
       <==> n <= U32_COUNT
  {
    if n <= U32_COUNT {
      forall txs | |NoncesOf(txs, who)| <= n ensures NoDup(NoncesOf(Process(accounts, txs).1, who)) {
        AcceptedAreSubmitted(accounts, txs, who);
        ReplayProtection(accounts, txs, who);
      }
    } else {
      var chain := Chain(accounts, who, n);
      ChainIsAccepted(accounts, who, n);
      ReplayProtection(accounts, chain, who);
      assert !NoDup(NoncesOf(Process(accounts, chain).1, who));
    }
  }

  // ----- pool order and block order

  /** Every transaction passes `validate` against the accounts the pool sees. */
  predicate PoolValid(accounts: Accounts, txs: seq<Tx>) {
    forall i :: 0 <= i < |txs| ==> Validate(accounts, txs[i]).Success?
  }

  function TagsOf(accounts: Accounts, tx: Tx): Validity {
    match Validate(accounts, tx) case Success((v, _)) => v case Failure(_) => Validity([], [])
  }

  ghost predicate ProvidedBefore(accounts: Accounts, txs: seq<Tx>, i: nat, tag: Tag)
    requires i <= |txs|
  {
    exists j :: 0 <= j < i && tag in TagsOf(accounts, txs[j]).provided
  }

  /** The pool's rule: provided tags never repeat, and required tags are provided earlier. */
  ghost predicate PoolOrdered(accounts: Accounts, txs: seq<Tx>) {
    forall i :: 0 <= i < |txs| ==>
      && (forall tag :: tag in TagsOf(accounts, txs[i]).provided ==> !ProvidedBefore(accounts, txs, i, tag))
      && (forall tag :: tag in TagsOf(accounts, txs[i]).required ==> ProvidedBefore(accounts, txs, i, tag))
  }

  predicate AllAccepted(accounts: Accounts, txs: seq<Tx>) {
    Process(accounts, txs).1 == txs
  }

  /** The nonce `who` uses next after `txs`, before any wrap-around. */
  function Expected(accounts: Accounts, txs: seq<Tx>, who: Account): nat {
    Lookup(accounts, who).nonce + |NoncesOf(txs, who)|
  }

  /** Every signed transaction carries its signer's initial nonce plus the number of the signer's earlier ones. */
  ghost predicate Consecutive(accounts: Accounts, txs: seq<Tx>) {
    forall i :: 0 <= i < |txs| && txs[i].signer.Some? ==>
      txs[i].nonce == Expected(accounts, txs[..i], txs[i].signer.value)
  }

  lemma NoncesStep(txs: seq<Tx>, i: nat, who: Account)
    requires i < |txs|
    ensures NoncesOf(txs[..i + 1], who)
         == NoncesOf(txs[..i], who) + if txs[i].signer == Some(who) then [txs[i].nonce] else []
  {
    assert txs[..i + 1][..i] == txs[..i];
  }

  lemma {:induction false} NoncesMonotone(txs: seq<Tx>, i: nat, j: nat, who: Account)
    requires i <= j <= |txs|
    ensures |NoncesOf(txs[..i], who)| <= |NoncesOf(txs[..j], who)|
  {
    if i < j {
      NoncesMonotone(txs, i, j - 1, who);
      NoncesStep(txs, j - 1, who);
    }
  }

  /** The c-th transaction of `who` among the first i. */
  lemma {:induction false} FindNth(txs: seq<Tx>, i: nat, who: Account, c: nat) returns (j: nat)
    requires i <= |txs| && c < |NoncesOf(txs[..i], who)|
    ensures j < i && txs[j].signer == Some(who) && |NoncesOf(txs[..j], who)| == c
  {
    NoncesStep(txs, i - 1, who);
    if c < |NoncesOf(txs[..i - 1], who)| {
      j := FindNth(txs, i - 1, who, c);
    } else {
      j := i - 1;
    }
  }

  lemma ProvidesOwnTag(accounts: Accounts, tx: Tx)
    requires Validate(accounts, tx).Success?
    ensures TagsOf(accounts, tx).provided == if tx.signer.Some? then [Tag(tx.signer.value, tx.nonce)] else []
    ensures TagsOf(accounts, tx).required ==
              if tx.signer.Some? && Lookup(accounts, tx.signer.value).nonce < tx.nonce
              then [Tag(tx.signer.value, tx.nonce - 1)] else []
  {
  }

  /** Pool order forces consecutive nonces, account by account, through any interleaving. */
  lemma PoolOrderIsConsecutive(accounts: Accounts, txs: seq<Tx>, i: nat)
    requires PoolValid(accounts, txs) && PoolOrdered(accounts, txs) && i <= |txs|
    ensures Consecutive(accounts, txs[..i])
  {
    if i > 0 {
      PoolOrderIsConsecutive(accounts, txs, i - 1);
      var tx := txs[i - 1];
      if tx.signer.Some? {
        NextIsConsecutive(accounts, txs, i - 1);
      }
      forall k | 0 <= k < i && txs[k].signer.Some?
        ensures txs[k].nonce == Expected(accounts, txs[..i][..k], txs[k].signer.value)
      {
        assert txs[..i][..k] == txs[..k];
        if k < i - 1 { assert txs[..i - 1][k] == txs[k] && txs[..i - 1][..k] == txs[..k]; }
      }
    }
  }

  lemma ConsecutiveAt(accounts: Accounts, txs: seq<Tx>, i: nat, j: nat)
    requires j < i <= |txs| && Consecutive(accounts, txs[..i]) && txs[j].signer.Some?
    ensures txs[j].nonce == Expected(accounts, txs[..j], txs[j].signer.value)
  {
    assert txs[..i][j] == txs[j] && txs[..i][..j] == txs[..j];
  }

  lemma NextIsConsecutive(accounts: Accounts, txs: seq<Tx>, i: nat)
    requires PoolValid(accounts, txs) && PoolOrdered(accounts, txs) && i < |txs|
    requires Consecutive(accounts, txs[..i]) && txs[i].signer.Some?
    ensures txs[i].nonce == Expected(accounts, txs[..i], txs[i].signer.value)
  {
    var who := txs[i].signer.value;
    var start, count, nonce := Lookup(accounts, who).nonce, |NoncesOf(txs[..i], who)|, txs[i].nonce;
    ProvidesOwnTag(accounts, txs[i]);
    if nonce < start + count {
      var j := FindNth(txs, i, who, nonce - start);
      ConsecutiveAt(accounts, txs, i, j);
      ProvidesOwnTag(accounts, txs[j]);
      assert Tag(who, nonce) in TagsOf(accounts, txs[j]).provided;
      assert ProvidedBefore(accounts, txs, i, Tag(who, nonce));
      assert false;
    }
    if nonce > start {
      assert ProvidedBefore(accounts, txs, i, Tag(who, nonce - 1));
      var j :| 0 <= j < i && Tag(who, nonce - 1) in TagsOf(accounts, txs[j]).provided;
      ProvidesOwnTag(accounts, txs[j]);
      ConsecutiveAt(accounts, txs, i, j);
      NoncesStep(txs, j, who);
      NoncesMonotone(txs, j + 1, i, who);
    }
  }

  lemma ConsecutiveIsPoolOrder(accounts: Accounts, txs: seq<Tx>)
    requires PoolValid(accounts, txs) && Consecutive(accounts, txs)
    ensures PoolOrdered(accounts, txs)
  {
    forall i | 0 <= i < |txs|
      ensures forall tag :: tag in TagsOf(accounts, txs[i]).provided ==> !ProvidedBefore(accounts, txs, i, tag)
      ensures forall tag :: tag in TagsOf(accounts, txs[i]).required ==> ProvidedBefore(accounts, txs, i, tag)
    {
      ProvidesOwnTag(accounts, txs[i]);
      if txs[i].signer.Some? {
        ConsecutiveIsFresh(accounts, txs, i);
        if Lookup(accounts, txs[i].signer.value).nonce < txs[i].nonce { ConsecutiveIsReady(accounts, txs, i); }
      }
    }
  }

  lemma ConsecutiveIsFresh(accounts: Accounts, txs: seq<Tx>, i: nat)
    requires PoolValid(accounts, txs) && Consecutive(accounts, txs) && i < |txs| && txs[i].signer.Some?
    ensures !ProvidedBefore(accounts, txs, i, Tag(txs[i].signer.value, txs[i].nonce))
  {
    var who := txs[i].signer.value;
    if ProvidedBefore(accounts, txs, i, Tag(who, txs[i].nonce)) {
      var j :| 0 <= j < i && Tag(who, txs[i].nonce) in TagsOf(accounts, txs[j]).provided;
      ProvidesOwnTag(accounts, txs[j]);
      NoncesStep(txs, j, who);
      NoncesMonotone(txs, j + 1, i, who);
      assert false;
    }
  }

  lemma ConsecutiveIsReady(accounts: Accounts, txs: seq<Tx>, i: nat)
    requires PoolValid(accounts, txs) && Consecutive(accounts, txs) && i < |txs| && txs[i].signer.Some?
    requires Lookup(accounts, txs[i].signer.value).nonce < txs[i].nonce
    ensures ProvidedBefore(accounts, txs, i, Tag(txs[i].signer.value, txs[i].nonce - 1))
  {
    var who := txs[i].signer.value;
    var j := FindNth(txs, i, who, |NoncesOf(txs[..i], who)| - 1);
    ProvidesOwnTag(accounts, txs[j]);
    assert Tag(who, txs[i].nonce - 1) in TagsOf(accounts, txs[j]).provided;
  }

  /** No account is bumped past the largest nonce before its last transaction. */
  ghost predicate NoWrap(accounts: Accounts, txs: seq<Tx>) {
    forall who: Account :: Expected(accounts, txs, who) <= U32_COUNT
  }

  lemma AcceptedAtMost(accounts: Accounts, txs: seq<Tx>)
    ensures |Process(accounts, txs).1| <= |txs|
  {
    if |txs| > 0 { AcceptedAtMost(accounts, txs[..|txs| - 1]); }
  }

  lemma AcceptedSplit(accounts: Accounts, txs: seq<Tx>, i: nat)
    requires i < |txs|
    ensures AllAccepted(accounts, txs[..i + 1])
       <==> AllAccepted(accounts, txs[..i]) && Submit(Process(accounts, txs[..i]).0, txs[i]).Success?
  {
    var front, all := txs[..i], txs[..i + 1];
    assert all[..i] == front && all == front + [txs[i]];
    AcceptedAtMost(accounts, front);
    var accepted := Process(accounts, front).1;
    if AllAccepted(accounts, all) {
      assert accepted == (accepted + [txs[i]])[..|accepted|];
    }
  }

  /** A transaction the pool found valid is accepted in a block exactly when its nonce is the account's current one. */
  lemma AcceptedExactlyAtNonce(accounts: Accounts, txs: seq<Tx>, tx: Tx)
    requires AllAccepted(accounts, txs) && Validate(accounts, tx).Success?
    ensures Submit(Process(accounts, txs).0, tx).Success?
       <==> (tx.signer.Some? ==> tx.nonce == AsU32(Expected(accounts, txs, tx.signer.value)))
  {
    if tx.signer.Some? { AcceptedNoncesCountUp(accounts, txs, tx.signer.value); }
  }

  lemma AcceptedStep(accounts: Accounts, txs: seq<Tx>, i: nat)
    requires i < |txs| && Validate(accounts, txs[i]).Success?
    ensures AllAccepted(accounts, txs[..i + 1])
       <==> && AllAccepted(accounts, txs[..i])
            && (txs[i].signer.Some? ==> txs[i].nonce == AsU32(Expected(accounts, txs[..i], txs[i].signer.value)))
  {
    AcceptedSplit(accounts, txs, i);
    if AllAccepted(accounts, txs[..i]) { AcceptedExactlyAtNonce(accounts, txs[..i], txs[i]); }
  }

  lemma CastExact(n: nat, x: U32)
    ensures x == n <==> x == AsU32(n) && n < U32_COUNT
  {
  }

  lemma AcceptedNoWrapStep(accounts: Accounts, txs: seq<Tx>, i: nat)
    requires i < |txs| && Validate(accounts, txs[i]).Success?
    ensures AllAccepted(accounts, txs[..i + 1]) && NoWrap(accounts, txs[..i + 1])
       <==> && AllAccepted(accounts, txs[..i]) && NoWrap(accounts, txs[..i])
            && (txs[i].signer.Some? ==> txs[i].nonce == Expected(accounts, txs[..i], txs[i].signer.value))
  {
    AcceptedStep(accounts, txs, i);
    NoWrapSplit(accounts, txs, i);
    if txs[i].signer.Some? { CastExact(Expected(accounts, txs[..i], txs[i].signer.value), txs[i].nonce); }
  }

  lemma {:induction false} ConsecutiveIsAccepted(accounts: Accounts, txs: seq<Tx>, i: nat)
    requires PoolValid(accounts, txs) && i <= |txs|
    ensures Consecutive(accounts, txs[..i]) <==> AllAccepted(accounts, txs[..i]) && NoWrap(accounts, txs[..i])
  {
    if i == 0 {
      assert txs[..0] == [];
    } else {
      ConsecutiveIsAccepted(accounts, txs, i - 1);
      ConsecutiveSplit(accounts, txs, i - 1);
      AcceptedNoWrapStep(accounts, txs, i - 1);
    }
  }

  lemma ConsecutiveSplit(accounts: Accounts, txs: seq<Tx>, i: nat)
    requires i < |txs|
    ensures Consecutive(accounts, txs[..i + 1])
       <==> && Consecutive(accounts, txs[..i])
            && (txs[i].signer.Some? ==> txs[i].nonce == Expected(accounts, txs[..i], txs[i].signer.value))
  {
    assert txs[..i + 1][..i] == txs[..i];
    assert forall k :: 0 <= k < i ==> txs[..i + 1][..k] == txs[..i][..k];
    assert forall k :: 0 <= k < i ==> txs[..i + 1][k] == txs[..i][k];
    assert txs[..i + 1][i] == txs[i];
  }

  lemma NoWrapSplit(accounts: Accounts, txs: seq<Tx>, i: nat)
    requires i < |txs|
    ensures NoWrap(accounts, txs[..i + 1])
       <==> && NoWrap(accounts, txs[..i])
            && (txs[i].signer.Some? ==> Expected(accounts, txs[..i], txs[i].signer.value) < U32_COUNT)
  {
    forall who: Account
      ensures Expected(accounts, txs[..i + 1], who)
           == Expected(accounts, txs[..i], who) + if txs[i].signer == Some(who) then 1 else 0
    {
      NoncesStep(txs, i, who);
    }
  }

  /** Among transactions the pool found valid, the pool's tag order is exactly the block order in which every one
      passes `validate` and `prepare` without a nonce wrapping around. */
  lemma PoolOrderIsBlockOrder(accounts: Accounts, txs: seq<Tx>)
    requires PoolValid(accounts, txs)
    ensures PoolOrdered(accounts, txs) <==> AllAccepted(accounts, txs) && NoWrap(accounts, txs)
  {
    assert txs[..|txs|] == txs;
    ConsecutiveIsAccepted(accounts, txs, |txs|);
    if PoolOrdered(accounts, txs) { PoolOrderIsConsecutive(accounts, txs, |txs|); }
    if Consecutive(accounts, txs) { ConsecutiveIsPoolOrder(accounts, txs); }
  }
}
