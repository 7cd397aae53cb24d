/** Positional account extraction: `next_account_info` on an iterator over
    the instruction's account list, which yields `NotEnoughAccountKeys`
    once the list is exhausted. */
module AccountIter {
  import opened Solana

  /** One `next_account_info(iter)?`: the next account and the rest of the
      iterator, or `NotEnoughAccountKeys` when nothing is left. */
  function NextAccountInfo(iter: seq<AccountInfo>): (r: Result<(AccountInfo, seq<AccountInfo>)>)
    ensures r.Ok? <==> iter != []
    ensures r.Ok? ==> [r.value.0] + r.value.1 == iter
    ensures r.Err? ==> r.error == NotEnoughAccountKeys
  {
    if iter == [] then Err(NotEnoughAccountKeys) else Ok((iter[0], iter[1..]))
  }

  /** `n` consecutive `next_account_info(iter)?` calls: the first `n`
      accounts in order, failing at the first call that finds the list
      exhausted. */
  function TakeAccounts(iter: seq<AccountInfo>, n: nat): (r: Result<seq<AccountInfo>>)
    ensures r.Ok? <==> n <= |iter|
    ensures r.Ok? ==> r.value == iter[..n]
    ensures r.Err? ==> r.error == NotEnoughAccountKeys
    decreases n
  {
    if n == 0 then Ok([])
    else
      var next :- NextAccountInfo(iter);
      var rest :- TakeAccounts(next.1, n - 1);
      Ok([next.0] + rest)
  }
}
