/** The authorisation validator of `create_board`: the caller must have
    signed, and must hold a non-zero balance of the board's token in an
    account owned by the account passed as the token program.  That
    account's key is never compared with the SPL-token program id, so any
    program the caller names can vouch for the holding's data. */
module Token {
  import opened Solana

  /** The three fields of an SPL-token account that the validator reads. */
  datatype TokenHolding = TokenHolding(owner: Pubkey, mint: Pubkey, amount: u64)

  /** `TokenAccount::unpack`: the token program's decoder of an account's
      bytes, which is not part of this model; it either yields the holding
      or fails with an error of its own. */
  type Unpack = seq<byte> -> Result<TokenHolding>

  /** The holding entitles `sender` to a board for `token`: it is the
      sender's, it is of that token, and its balance is not zero. */
  predicate HoldingEntitles(h: TokenHolding, sender: Pubkey, token: Pubkey) {
    h.owner == sender && h.mint == token && h.amount != 0
  }

  /** Every authorisation check passes, taken together and without regard
      to the order in which the validator performs them. */
  predicate Authorized(unpack: Unpack, sender: AccountInfo, holding: AccountInfo,
                       tokenProgram: AccountInfo, token: Pubkey)
  {
    && sender.isSigner
    && holding.owner == tokenProgram.key
    && unpack(holding.data).Ok?
    && HoldingEntitles(unpack(holding.data).value, sender.key, token)
  }

  /** The ordered checks: signer, then the holding account's owning
      program, then decoding the holding, then owner, mint and balance.
      The first check that fails decides the error. */
  function Authorize(unpack: Unpack, sender: AccountInfo, holding: AccountInfo,
                     tokenProgram: AccountInfo, token: Pubkey): (r: Result<()>)
    ensures r.Ok? <==> Authorized(unpack, sender, holding, tokenProgram, token)
    ensures !sender.isSigner ==> r == Err(MissingRequiredSignature)
    ensures sender.isSigner && holding.owner != tokenProgram.key ==> r == Err(IncorrectProgramId)
    ensures sender.isSigner && holding.owner == tokenProgram.key && unpack(holding.data).Err? ==>
              r == Err(unpack(holding.data).error)
    ensures sender.isSigner && holding.owner == tokenProgram.key && unpack(holding.data).Ok? &&
            !HoldingEntitles(unpack(holding.data).value, sender.key, token) ==>
              r == Err(InvalidAccountData)
  {
    if !sender.isSigner then
      Err(MissingRequiredSignature)
    else if holding.owner != tokenProgram.key then
      Err(IncorrectProgramId)
    else
      var h :- unpack(holding.data);
      if h.owner != sender.key || h.mint != token || h.amount == 0 then
        Err(InvalidAccountData)
      else
        Ok(())
  }

  /** Which program owns the holding account does not matter, only that it
      is the one passed as the token program: moving the holding to another
      owning program, passed in its place, gives the same verdict. */
  lemma AnyTokenProgramAccepted(unpack: Unpack, sender: AccountInfo, holding: AccountInfo,
                                program1: AccountInfo, program2: AccountInfo, token: Pubkey)
    ensures Authorize(unpack, sender, holding.(owner := program1.key), program1, token)
         == Authorize(unpack, sender, holding.(owner := program2.key), program2, token)
  {
  }
}
