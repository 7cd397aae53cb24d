/** Provisioning the board's storage: the rent-exempt balance, the system
    program's `create_account` instruction, and the cross-program call
    (`invoke_signed`) that executes it. */
module Provisioning {
  import opened Solana

  /** The rent sysvar.  `minimum_balance` is `solana_program` library
      arithmetic (including floating point) that is not in `src/lib.rs` and
      not part of this model, so it is an opaque function from an account
      size to a lamport amount. */
  datatype Rent = Rent(minimumBalance: nat -> u64)

  /** The parameters of `system_instruction::create_account`. */
  datatype CreateAccount = CreateAccount(from: Pubkey, to: Pubkey, lamports: u64, space: u64, owner: Pubkey)

  /** An account an instruction names, with the privileges it needs there. */
  datatype AccountMeta = AccountMeta(pubkey: Pubkey, isSigner: bool, isWritable: bool)

  /** The accounts a `create_account` instruction names: the payer, then the
      new account, each needing to be a writable signer. */
  function CreateAccountMetas(req: CreateAccount): (r: seq<AccountMeta>)
    ensures |r| == 2
    ensures r[0].pubkey == req.from && r[1].pubkey == req.to
    ensures forall i :: 0 <= i < |r| ==> r[i].isSigner && r[i].isWritable
  {
    [AccountMeta(req.from, true, true), AccountMeta(req.to, true, true)]
  }

  /** The system program's verdict on a create-account request, given the
      payer's and the new account's views; it fails for reasons of its own
      (insufficient funds, an account already in use, ...). */
  type SystemProgram = (CreateAccount, AccountInfo, AccountInfo) -> Result<()>

  /** The position of the first account view with the given key. */
  function FindKey(infos: seq<AccountInfo>, key: Pubkey): (r: Option<nat>)
    ensures r.None? <==> forall i :: 0 <= i < |infos| ==> infos[i].key != key
    ensures r.Some? ==> r.value < |infos| && infos[r.value].key == key
    ensures r.Some? ==> forall j :: 0 <= j < r.value ==> infos[j].key != key
  {
    if infos == [] then None
    else if infos[0].key == key then Some(0)
    else
      match FindKey(infos[1..], key)
      case None => None
      case Some(i) => Some(i + 1)
  }

  /** The caller's view of an account grants what the instruction needs:
      a signature (from the view itself or from a derived address the
      caller signs for) and write access. */
  predicate Grants(meta: AccountMeta, info: AccountInfo, pdaSigners: set<Pubkey>) {
    && (!meta.isSigner || info.isSigner || meta.pubkey in pdaSigners)
    && (!meta.isWritable || info.isWritable)
  }

  /** The account the instruction names is among the passed views and the
      first view with its key grants the needed privileges. */
  predicate Granted(meta: AccountMeta, infos: seq<AccountInfo>, pdaSigners: set<Pubkey>) {
    var k := FindKey(infos, meta.pubkey);
    k.Some? && Grants(meta, infos[k.value], pdaSigners)
  }

  /** The runtime's check of a cross-program call: every account the
      instruction names must be passed, with the privileges it needs. */
  function CheckPrivileges(metas: seq<AccountMeta>, infos: seq<AccountInfo>,
                           pdaSigners: set<Pubkey>): (r: Result<()>)
    ensures r.Ok? <==> forall i :: 0 <= i < |metas| ==> Granted(metas[i], infos, pdaSigners)
    ensures r.Err? ==> r.error == MissingAccount || r.error == PrivilegeEscalation
    ensures r.Err? && r.error == MissingAccount ==>
              exists i :: 0 <= i < |metas| && FindKey(infos, metas[i].pubkey).None?
    decreases |metas|
  {
    if metas == [] then Ok(())
    else
      match FindKey(infos, metas[0].pubkey)
      case None => Err(MissingAccount)
      case Some(k) =>
        if !Grants(metas[0], infos[k], pdaSigners) then Err(PrivilegeEscalation)
        else
          var r := CheckPrivileges(metas[1..], infos, pdaSigners);
          assert forall i :: 1 <= i < |metas| ==> metas[i] == metas[1..][i - 1];
          r
  }

  /** The new account as the system program leaves it: owned by the
      requested program and holding `space` zero bytes. */
  function Allocate(account: AccountInfo, req: CreateAccount): (r: AccountInfo)
    ensures r.key == account.key && r.isSigner == account.isSigner && r.isWritable == account.isWritable
    ensures r.owner == req.owner
    ensures |r.data| == req.space && forall i :: 0 <= i < |r.data| ==> r.data[i] == 0
  {
    account.(owner := req.owner, data := Zeros(req.space))
  }

  /** Allocation keeps nothing of the account's former contents or owner:
      views that agree on the key, the privileges and the balance end up
      the same. */
  lemma AllocationForgetsContents(a: AccountInfo, b: AccountInfo, req: CreateAccount)
    requires a.key == b.key && a.isSigner == b.isSigner && a.isWritable == b.isWritable
    requires a.lamports == b.lamports
    ensures Allocate(a, req) == Allocate(b, req)
  {
  }

  /** The runtime lets a create-account call through exactly when the first
      views of the payer and of the new account are both writable and both
      signed, by themselves or by a derived address; a payer that is not
      passed at all is a missing account. */
  lemma CreatePrivileges(req: CreateAccount, infos: seq<AccountInfo>, pdaSigners: set<Pubkey>)
    ensures CheckPrivileges(CreateAccountMetas(req), infos, pdaSigners).Ok? <==>
              && FindKey(infos, req.from).Some? && FindKey(infos, req.to).Some?
              && var payer := infos[FindKey(infos, req.from).value];
              && var target := infos[FindKey(infos, req.to).value];
              && (payer.isSigner || req.from in pdaSigners) && payer.isWritable
              && (target.isSigner || req.to in pdaSigners) && target.isWritable
    ensures FindKey(infos, req.from).None? ==>
              CheckPrivileges(CreateAccountMetas(req), infos, pdaSigners) == Err(MissingAccount)
  {
  }

  /** `invoke_signed(&create_account(..), infos, seeds)`: the runtime checks
      the privileges (`pdaSigners` are the derived addresses the seeds sign
      for), then the system program decides; on success the result is the
      new account's view after allocation. */
  function InvokeCreateAccount(system: SystemProgram, req: CreateAccount, infos: seq<AccountInfo>,
                               pdaSigners: set<Pubkey>): (r: Result<AccountInfo>)
    ensures r.Ok? ==> forall i :: 0 <= i < 2 ==> Granted(CreateAccountMetas(req)[i], infos, pdaSigners)
    ensures r.Ok? ==> r.value.key == req.to && r.value.owner == req.owner
    ensures r.Ok? ==> r.value.data == Zeros(req.space)
    ensures (forall i :: 0 <= i < 2 ==> Granted(CreateAccountMetas(req)[i], infos, pdaSigners)) ==>
              var payer := infos[FindKey(infos, req.from).value];
              var target := infos[FindKey(infos, req.to).value];
              && (system(req, payer, target).Err? ==> r == Err(system(req, payer, target).error))
              && (system(req, payer, target).Ok? ==> r == Ok(Allocate(target, req)))
    ensures FindKey(infos, req.from).Some? && FindKey(infos, req.to).Some? &&
            req.to !in pdaSigners && !infos[FindKey(infos, req.to).value].isSigner ==>
              r == Err(PrivilegeEscalation)
  {
    var metas := CreateAccountMetas(req);
    var _ :- CheckPrivileges(metas, infos, pdaSigners);
    assert Granted(metas[0], infos, pdaSigners) && Granted(metas[1], infos, pdaSigners);
    var payer := infos[FindKey(infos, req.from).value];
    var target := infos[FindKey(infos, req.to).value];
    var _ :- system(req, payer, target);
    Ok(Allocate(target, req))
  }

  /** The create call sees the passed accounts only through the views of
      the payer and the new account it finds there: lists that agree on
      those (up to what the system program and allocation look at) give the
      same outcome. */
  lemma InvokeDependsOnLookups(system: SystemProgram, req: CreateAccount,
                               infos1: seq<AccountInfo>, infos2: seq<AccountInfo>)
    requires FindKey(infos1, req.from).Some? && FindKey(infos1, req.to).Some?
    requires FindKey(infos1, req.from) == FindKey(infos2, req.from)
    requires FindKey(infos1, req.to) == FindKey(infos2, req.to)
    requires var f, t := FindKey(infos1, req.from).value, FindKey(infos1, req.to).value;
             && infos1[f] == infos2[f]
             && infos1[t].isSigner == infos2[t].isSigner
             && infos1[t].isWritable == infos2[t].isWritable
             && system(req, infos1[f], infos1[t]) == system(req, infos2[f], infos2[t])
             && Allocate(infos1[t], req) == Allocate(infos2[t], req)
    ensures InvokeCreateAccount(system, req, infos1, {}) == InvokeCreateAccount(system, req, infos2, {})
  {
    var metas := CreateAccountMetas(req);
    assert Granted(metas[0], infos1, {}) == Granted(metas[0], infos2, {});
    assert Granted(metas[1], infos1, {}) == Granted(metas[1], infos2, {});
    var c1 := CheckPrivileges(metas, infos1, {});
    var c2 := CheckPrivileges(metas, infos2, {});
    if c1.Err? {
      assert c1.error == PrivilegeEscalation;
      assert c2.error == PrivilegeEscalation;
    }
  }
}
