/** `create_board`: take six positional accounts, authorise the caller,
    create the board account through the system program, then write the
    board record into it.  Each stage ends the instruction at its first
    failure. */
module Board {
  import opened Solana
  import opened AccountIter
  import opened Token
  import opened Provisioning
  import opened BorshWriter

  /** The record stored in a board account (`MessageBoardInfo`). */
  datatype MessageBoardInfo = MessageBoardInfo(isInitialized: bool, owner: Pubkey, token: Pubkey, url: string)

  /** The code `create_board` calls that is not in `src/lib.rs` and not part
      of this model: library code that runs inside the program, and the
      system program it invokes.
      - `unpack`: `spl_token::state::Account::unpack`;
      - `rentFromAccount`: `Rent::from_account_info`, decoding the sysvar
        account's bytes;
      - `boardSize`: `size_of::<MessageBoardInfo>()`, a compile-time constant
        of the Rust memory layout, the same whatever the url;
      - `system`: the system program's verdict on a create-account request;
      - `encode`: the byte chunks Borsh's derived `serialize` hands to
        `write_all`, in order (a `String` field is two chunks: its `u32`
        length, then its bytes). */
  datatype Runtime = Runtime(
    unpack: Unpack,
    rentFromAccount: AccountInfo -> Result<Rent>,
    boardSize: u64,
    system: SystemProgram,
    encode: MessageBoardInfo -> seq<seq<byte>>
  )

  /** The six positional accounts, in the order the instruction lists them. */
  datatype BoardAccounts = BoardAccounts(
    sender: AccountInfo,
    board: AccountInfo,
    holding: AccountInfo,
    tokenProgram: AccountInfo,
    systemProgram: AccountInfo,
    rentSysvar: AccountInfo
  )

  /** A side-effecting call the handler made: asking the system program to
      create the board account, and serializing the record into it. */
  datatype Call = InvokeCreate(request: CreateAccount) | SerializeBoard(record: MessageBoardInfo)

  /** What a successful run leaves behind: the request that created the
      board, the record, and the board account as written. */
  datatype Created = Created(request: CreateAccount, record: MessageBoardInfo, account: AccountInfo)

  /** One run of the handler: its outcome and the calls it made, in order,
      including those whose effects the host discards when the run fails. */
  datatype Run = Run(result: Result<Created>, calls: seq<Call>)

  /** Six `next_account_info` calls; any further accounts are ignored. */
  function ExtractAccounts(accounts: seq<AccountInfo>): (r: Result<BoardAccounts>)
    ensures r.Ok? <==> 6 <= |accounts|
    ensures r.Err? ==> r.error == NotEnoughAccountKeys
    ensures r.Ok? ==> r.value == BoardAccounts(accounts[0], accounts[1], accounts[2],
                                               accounts[3], accounts[4], accounts[5])
  {
    var six :- TakeAccounts(accounts, 6);
    Ok(BoardAccounts(six[0], six[1], six[2], six[3], six[4], six[5]))
  }

  /** The create-account request: the sender pays, the board account is
      created with the fixed record size and that size's rent-exempt
      balance, owned by this program. */
  function BoardRequest(accs: BoardAccounts, rent: Rent, space: u64, programId: Pubkey): CreateAccount {
    CreateAccount(accs.sender.key, accs.board.key, rent.minimumBalance(space), space, programId)
  }

  /** The record a new board gets: initialised, owned by the sender, bound
      to the token and the url. */
  function NewRecord(sender: Pubkey, token: Pubkey, url: string): MessageBoardInfo {
    MessageBoardInfo(true, sender, token, url)
  }

  /** The accounts passed along with the create-account call. */
  function CreateInfos(accs: BoardAccounts): seq<AccountInfo> {
    [accs.sender, accs.board, accs.systemProgram]
  }

  /** Serializing the record into the account's data: the encoding lands at
      the start of the data and the rest is untouched, or the write fails
      because the data is too short. */
  function WriteRecord(encode: MessageBoardInfo -> seq<seq<byte>>, record: MessageBoardInfo,
                       account: AccountInfo): (r: Result<AccountInfo>)
    ensures r.Ok? <==> |Flatten(encode(record))| <= |account.data|
    ensures r.Err? ==> r.error == BorshIoError
    ensures r.Ok? ==> r.value == account.(data := Flatten(encode(record)) + account.data[|Flatten(encode(record))|..])
  {
    var (data, status) := Serialize(encode(record), account.data);
    var _ :- status;
    Ok(account.(data := data))
  }

  /** The stages after authorisation (lines 48-76): create the board
      account, then write the record into it. */
  function ProvisionAndWrite(rt: Runtime, programId: Pubkey, accs: BoardAccounts, rent: Rent,
                             token: Pubkey, url: string): (r: Run)
    // the request is made first, and the record is serialized only after
    // creation succeeded
    ensures 1 <= |r.calls| <= 2
    ensures r.calls[0] == InvokeCreate(BoardRequest(accs, rent, rt.boardSize, programId))
    ensures |r.calls| == 2 <==> InvokeCreateAccount(rt.system, r.calls[0].request, CreateInfos(accs), {}).Ok?
    ensures |r.calls| == 1 ==>
              r.result == Err(InvokeCreateAccount(rt.system, r.calls[0].request, CreateInfos(accs), {}).error)
    ensures |r.calls| == 2 ==> r.calls[1] == SerializeBoard(MessageBoardInfo(true, accs.sender.key, token, url))
    // what a successful run leaves in the board account
    ensures r.result.Ok? ==>
              var b := r.result.value;
              var encoded := Flatten(rt.encode(b.record));
              && r.calls == [InvokeCreate(b.request), SerializeBoard(b.record)]
              && b.account.key == accs.board.key
              && b.account.owner == programId
              && |encoded| <= rt.boardSize
              && b.account.data == encoded + Zeros(rt.boardSize - |encoded|)
    // a run that got as far as serializing fails only for a too-long record
    ensures |r.calls| == 2 ==>
              (r.result.Err? <==> rt.boardSize < |Flatten(rt.encode(r.calls[1].record))|)
    ensures |r.calls| == 2 && r.result.Err? ==> r.result.error == BorshIoError
  {
    var request := BoardRequest(accs, rent, rt.boardSize, programId);
    // no seeds are passed, so no derived address signs
    match InvokeCreateAccount(rt.system, request, CreateInfos(accs), {})
    case Err(e) => Run(Err(e), [InvokeCreate(request)])
    case Ok(created) =>
      var record := NewRecord(accs.sender.key, token, url);
      var calls := [InvokeCreate(request), SerializeBoard(record)];
      match WriteRecord(rt.encode, record, created)
      case Err(e) => Run(Err(e), calls)
      case Ok(written) =>
        assert created.data == Zeros(rt.boardSize);
        Run(Ok(Created(request, record, written)), calls)
  }

  /** The whole handler. */
  function CreateBoard(rt: Runtime, programId: Pubkey, accounts: seq<AccountInfo>,
                       token: Pubkey, url: string): (r: Run)
    // too few accounts: fails while extracting them, before anything else
    ensures |accounts| < 6 ==> r == Run(Err(NotEnoughAccountKeys), [])
    // a failed authorisation check ends the run with its error and no call
    ensures 6 <= |accounts| && !Authorized(rt.unpack, accounts[0], accounts[2], accounts[3], token) ==>
              r.calls == [] && r.result == Err(Authorize(rt.unpack, accounts[0], accounts[2], accounts[3], token).error)
    // so does failing to load the rent sysvar
    ensures 6 <= |accounts| && Authorized(rt.unpack, accounts[0], accounts[2], accounts[3], token) &&
            rt.rentFromAccount(accounts[5]).Err? ==>
              r == Run(Err(rt.rentFromAccount(accounts[5]).error), [])
    // nothing is provisioned or written unless every check passes; then
    // the rest of the run is provisioning and writing
    ensures r.calls != [] <==>
              && 6 <= |accounts|
              && Authorized(rt.unpack, accounts[0], accounts[2], accounts[3], token)
              && rt.rentFromAccount(accounts[5]).Ok?
    ensures r.calls != [] ==>
              r == ProvisionAndWrite(rt, programId, ExtractAccounts(accounts).value,
                                     rt.rentFromAccount(accounts[5]).value, token, url)
  {
    match ExtractAccounts(accounts)
    case Err(e) => Run(Err(e), [])
    case Ok(accs) =>
      match Authorize(rt.unpack, accs.sender, accs.holding, accs.tokenProgram, token)
      case Err(e) => Run(Err(e), [])
      case Ok(_) =>
        match rt.rentFromAccount(accs.rentSysvar)
        case Err(e) => Run(Err(e), [])
        case Ok(rent) => ProvisionAndWrite(rt, programId, accs, rent, token, url)
  }
}
