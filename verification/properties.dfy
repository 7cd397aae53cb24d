/** Properties of `create_board` as a whole: which error comes first, what
    is (not) created or written, and which inputs the outcome depends on. */
module BoardProperties {
  import opened Solana
  import opened Token
  import opened Provisioning
  import opened BorshWriter
  import opened Board

  /** An unsigned sender is refused with `MissingRequiredSignature` and no
      call, whatever the other accounts, the runtime and the arguments. */
  lemma UnsignedSenderRejected(rt: Runtime, programId: Pubkey, accounts: seq<AccountInfo>,
                               token: Pubkey, url: string)
    requires 6 <= |accounts| && !accounts[0].isSigner
    ensures CreateBoard(rt, programId, accounts, token, url) == Run(Err(MissingRequiredSignature), [])
  {
  }

  /** A holding account not owned by the given token program is refused with
      `IncorrectProgramId` before its data is decoded: any decoder gives the
      same run. */
  lemma OwnerProgramCheckedBeforeUnpack(rt: Runtime, unpack: Unpack, programId: Pubkey,
                                        accounts: seq<AccountInfo>, token: Pubkey, url: string)
    requires 6 <= |accounts| && accounts[0].isSigner && accounts[2].owner != accounts[3].key
    ensures CreateBoard(rt, programId, accounts, token, url) == Run(Err(IncorrectProgramId), [])
    ensures CreateBoard(rt.(unpack := unpack), programId, accounts, token, url)
         == CreateBoard(rt, programId, accounts, token, url)
  {
  }

  /** A holding account that does not decode ends the run with the
      decoder's own error and no call. */
  lemma UnpackErrorPropagated(rt: Runtime, programId: Pubkey, accounts: seq<AccountInfo>,
                              token: Pubkey, url: string)
    requires 6 <= |accounts| && accounts[0].isSigner && accounts[2].owner == accounts[3].key
    requires rt.unpack(accounts[2].data).Err?
    ensures CreateBoard(rt, programId, accounts, token, url) == Run(Err(rt.unpack(accounts[2].data).error), [])
  {
  }

  /** A holding of someone else, of another token, or with a zero balance is
      refused with `InvalidAccountData` and no call. */
  lemma HoldingMismatchRejected(rt: Runtime, programId: Pubkey, accounts: seq<AccountInfo>,
                                token: Pubkey, url: string)
    requires 6 <= |accounts| && accounts[0].isSigner && accounts[2].owner == accounts[3].key
    requires rt.unpack(accounts[2].data).Ok?
    requires var h := rt.unpack(accounts[2].data).value;
             h.owner != accounts[0].key || h.mint != token || h.amount == 0
    ensures CreateBoard(rt, programId, accounts, token, url) == Run(Err(InvalidAccountData), [])
  {
  }

  /** The one create-account request: the sender pays, the board account is
      created, owned by this program, with the fixed board size and that
      size's rent-exempt balance. */
  lemma CreationRequestFields(rt: Runtime, programId: Pubkey, accounts: seq<AccountInfo>,
                              token: Pubkey, url: string)
    requires CreateBoard(rt, programId, accounts, token, url).calls != []
    ensures var run := CreateBoard(rt, programId, accounts, token, url);
            && run.calls[0].InvokeCreate?
            && var req := run.calls[0].request;
            && req.from == accounts[0].key
            && req.to == accounts[1].key
            && req.owner == programId
            && req.space == rt.boardSize
            && req.lamports == rt.rentFromAccount(accounts[5]).value.minimumBalance(req.space)
  {
  }

  /** The size asked for does not depend on the url: runs that differ only
      in the url make the same request, or none. */
  lemma RequestIgnoresUrl(rt: Runtime, programId: Pubkey, accounts: seq<AccountInfo>,
                          token: Pubkey, url1: string, url2: string)
    ensures var run1 := CreateBoard(rt, programId, accounts, token, url1);
            var run2 := CreateBoard(rt, programId, accounts, token, url2);
            && (run1.calls != [] <==> run2.calls != [])
            && (run1.calls != [] ==> run1.calls[0] == run2.calls[0])
  {
  }

  /** The record is serialized only once the board account was created, and
      it is exactly `{ is_initialized: true, owner: sender, token, url }`. */
  lemma WriteOnlyAfterCreation(rt: Runtime, programId: Pubkey, accounts: seq<AccountInfo>,
                               token: Pubkey, url: string)
    requires |CreateBoard(rt, programId, accounts, token, url).calls| == 2
    ensures var run := CreateBoard(rt, programId, accounts, token, url);
            && 6 <= |accounts|
            && InvokeCreateAccount(rt.system, run.calls[0].request, [accounts[0], accounts[1], accounts[4]], {}).Ok?
            && run.calls[1] == SerializeBoard(MessageBoardInfo(true, accounts[0].key, token, url))
  {
    var accs := ExtractAccounts(accounts).value;
    assert CreateInfos(accs) == [accounts[0], accounts[1], accounts[4]];
  }

  /** A run succeeds exactly when every check passes, the board account is
      created, and the record's encoding fits the fixed board size. */
  lemma SuccessCharacterised(rt: Runtime, programId: Pubkey, accounts: seq<AccountInfo>,
                             token: Pubkey, url: string)
    ensures CreateBoard(rt, programId, accounts, token, url).result.Ok? <==>
              && 6 <= |accounts|
              && Authorized(rt.unpack, accounts[0], accounts[2], accounts[3], token)
              && rt.rentFromAccount(accounts[5]).Ok?
              && var rent := rt.rentFromAccount(accounts[5]).value;
              && var req := CreateAccount(accounts[0].key, accounts[1].key,
                                          rent.minimumBalance(rt.boardSize), rt.boardSize, programId);
              && InvokeCreateAccount(rt.system, req, [accounts[0], accounts[1], accounts[4]], {}).Ok?
              && |Flatten(rt.encode(MessageBoardInfo(true, accounts[0].key, token, url)))| <= rt.boardSize
  {
    if 6 <= |accounts| {
      var accs := ExtractAccounts(accounts).value;
      assert CreateInfos(accs) == [accounts[0], accounts[1], accounts[4]];
    }
  }

  /** After a successful run the board account is owned by this program and
      its data starts with the record's encoding, zero-filled after it: the
      bytes a decoder of that encoding reads back as the record. */
  lemma StoredRecordEncoding(rt: Runtime, programId: Pubkey, accounts: seq<AccountInfo>,
                             token: Pubkey, url: string)
    requires CreateBoard(rt, programId, accounts, token, url).result.Ok?
    ensures var board := CreateBoard(rt, programId, accounts, token, url).result.value;
            var encoded := Flatten(rt.encode(MessageBoardInfo(true, accounts[0].key, token, url)));
            && board.account.key == accounts[1].key
            && board.account.owner == programId
            && |board.account.data| == rt.boardSize
            && board.account.data[..|encoded|] == encoded
            && forall i :: |encoded| <= i < rt.boardSize ==> board.account.data[i] == 0
  {
    var board := CreateBoard(rt, programId, accounts, token, url).result.value;
    var encoded := Flatten(rt.encode(board.record));
    assert board.account.data == encoded + Zeros(rt.boardSize - |encoded|);
    assert board.account.data[..|encoded|] == encoded;
  }

  /** A failed authorisation depends only on the sender, the holding account
      and the token program: the board, system-program and rent accounts
      (and any accounts after the sixth) change nothing. */
  lemma AuthorizationIgnoresOtherAccounts(rt: Runtime, programId: Pubkey, accounts1: seq<AccountInfo>,
                                          accounts2: seq<AccountInfo>, token: Pubkey, url: string)
    requires 6 <= |accounts1| && 6 <= |accounts2|
    requires accounts1[0] == accounts2[0] && accounts1[2] == accounts2[2] && accounts1[3] == accounts2[3]
    requires !Authorized(rt.unpack, accounts1[0], accounts1[2], accounts1[3], token)
    ensures CreateBoard(rt, programId, accounts1, token, url) == CreateBoard(rt, programId, accounts2, token, url)
  {
  }

  /** The create-account call does not look at the new account's existing
      data beyond what the system program does. */
  lemma CreateIgnoresBoardData(system: SystemProgram, accs: BoardAccounts, req: CreateAccount, data: seq<byte>)
    requires req.from == accs.sender.key && req.to == accs.board.key
    requires system(req, accs.sender, accs.board) == system(req, accs.sender, accs.board.(data := data))
    ensures InvokeCreateAccount(system, req, CreateInfos(accs.(board := accs.board.(data := data))), {})
         == InvokeCreateAccount(system, req, CreateInfos(accs), {})
  {
    var infos := CreateInfos(accs);
    var infos' := CreateInfos(accs.(board := accs.board.(data := data)));
    assert FindKey(infos, req.from) == FindKey(infos', req.from) == Some(0);
    if req.to == req.from {
      assert FindKey(infos, req.to) == FindKey(infos', req.to) == Some(0);
    } else {
      assert FindKey(infos, req.to) == FindKey(infos', req.to) == Some(1);
    }
    InvokeDependsOnLookups(system, req, infos', infos);
  }

  /** Provisioning and writing do not read the board's existing data. */
  lemma ProvisionIgnoresBoardData(rt: Runtime, programId: Pubkey, accs: BoardAccounts, rent: Rent,
                                  token: Pubkey, url: string, data: seq<byte>)
    requires var req := BoardRequest(accs, rent, rt.boardSize, programId);
             rt.system(req, accs.sender, accs.board) == rt.system(req, accs.sender, accs.board.(data := data))
    ensures ProvisionAndWrite(rt, programId, accs.(board := accs.board.(data := data)), rent, token, url)
         == ProvisionAndWrite(rt, programId, accs, rent, token, url)
  {
    var req := BoardRequest(accs, rent, rt.boardSize, programId);
    assert BoardRequest(accs.(board := accs.board.(data := data)), rent, rt.boardSize, programId) == req;
    CreateIgnoresBoardData(rt.system, accs, req, data);
  }

  /** The board account's existing data is never read: replacing it changes
      nothing, unless the system program itself decides differently.  In
      particular a board that already holds an initialised record is not
      refused by the handler. */
  lemma ExistingBoardDataIgnored(rt: Runtime, programId: Pubkey, accounts: seq<AccountInfo>,
                                 token: Pubkey, url: string, data: seq<byte>)
    requires 6 <= |accounts|
    requires forall req :: rt.system(req, accounts[0], accounts[1]) == rt.system(req, accounts[0], accounts[1].(data := data))
    ensures CreateBoard(rt, programId, accounts[1 := accounts[1].(data := data)], token, url)
         == CreateBoard(rt, programId, accounts, token, url)
  {
    var accounts' := accounts[1 := accounts[1].(data := data)];
    var accs := ExtractAccounts(accounts).value;
    assert ExtractAccounts(accounts').value == accs.(board := accs.board.(data := data));
    if Authorized(rt.unpack, accounts[0], accounts[2], accounts[3], token) && rt.rentFromAccount(accounts[5]).Ok? {
      ProvisionIgnoresBoardData(rt, programId, accs, rt.rentFromAccount(accounts[5]).value, token, url, data);
    }
  }

  /** The board account must sign its own creation: no seeds are passed, so
      an unsigned board account (other than the sender's own) is never
      created and nothing is written. */
  lemma UnsignedBoardNotCreated(rt: Runtime, programId: Pubkey, accounts: seq<AccountInfo>,
                                token: Pubkey, url: string)
    requires 6 <= |accounts|
    requires Authorized(rt.unpack, accounts[0], accounts[2], accounts[3], token)
    requires rt.rentFromAccount(accounts[5]).Ok?
    requires !accounts[1].isSigner && accounts[1].key != accounts[0].key
    ensures var run := CreateBoard(rt, programId, accounts, token, url);
            run.result == Err(PrivilegeEscalation) && |run.calls| == 1
  {
    var accs := ExtractAccounts(accounts).value;
    var infos := CreateInfos(accs);
    assert FindKey(infos, accounts[1].key) == Some(1);
  }

  /** The fixed board size cannot hold a url longer than itself: whenever
      every url character costs at least one encoded byte, such a run never
      succeeds, and if the board account was created the write fails with
      `BorshIoError`. */
  lemma LongUrlNeverStored(rt: Runtime, programId: Pubkey, accounts: seq<AccountInfo>,
                           token: Pubkey, url: string)
    requires 1 <= |accounts| ==>
               |url| <= |Flatten(rt.encode(MessageBoardInfo(true, accounts[0].key, token, url)))|
    requires rt.boardSize < |url|
    ensures var run := CreateBoard(rt, programId, accounts, token, url);
            && run.result.Err?
            && (|run.calls| == 2 ==> run.result.error == BorshIoError)
  {
  }

  /** Accounts after the sixth are never looked at. */
  lemma ExtraAccountsIgnored(rt: Runtime, programId: Pubkey, accounts: seq<AccountInfo>,
                             extra: seq<AccountInfo>, token: Pubkey, url: string)
    requires 6 <= |accounts|
    ensures CreateBoard(rt, programId, accounts + extra, token, url) == CreateBoard(rt, programId, accounts, token, url)
  {
    assert (accounts + extra)[..6] == accounts[..6];
  }
}
