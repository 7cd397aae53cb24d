# create_board: a Dafny model

This project models `create_board`, the one instruction handler of a Solana
program that opens a message board for holders of a token. The handler runs
a fixed pipeline:

1. It takes six positional accounts from the instruction's account list:
   sender, board, token holding, token program, system program and rent
   sysvar.
2. It authorises the caller, in this order:
   - the sender must have signed;
   - the holding account must be owned by the given token program;
   - the holding's data must decode as an SPL-token account;
   - that holding must belong to the sender, be of the board's token and have
     a non-zero balance.
3. It asks the system program to create the board account. The sender pays.
   The new account is owned by this program and gets a fixed size with that
   size's rent-exempt balance.
4. It serializes the record `{ is_initialized: true, owner: sender, token, url }`
   into the new account.

Each step ends the instruction at its first error.

The model is functional. `Board.CreateBoard` maps a `Runtime`, the program
id, the account list, the token and the url to a `Run`. A `Run` holds the
outcome and the side-effecting calls the handler made, in order. Those calls
are the create-account request and the serialization of the record. The
`Runtime` holds, as opaque functions, the code the handler calls that is not
in `src/lib.rs`: library code that runs inside the program, and the system
program it invokes.

- `TokenAccount::unpack`;
- `Rent::from_account_info` and `minimum_balance`;
- the constant `size_of::<MessageBoardInfo>()`;
- the system program's verdict;
- the Borsh encoding of the record, as the chunks handed to `write_all` in order.

Modules follow the handler's stages:

- `Solana` (`solana.dfy`): keys, bytes, `u64`, `AccountInfo`, `ProgramError`, `Result`.
- `AccountIter` (`accounts.dfy`): `next_account_info`.
- `Token` (`token.dfy`): the ordered authorisation validator.
- `Provisioning` (`provisioning.dfy`): the create-account instruction. It also
  models the runtime's privilege check on `invoke_signed`, which gets no
  signer seeds here.
- `BorshWriter` (`writer.dfy`): how a Borsh `serialize` fills a `&mut [u8]`.
  The encoding goes out as a sequence of `write_all` chunks; a `String`
  field takes two, its `u32` length and then its bytes. Each write copies
  what still fits, and `WriteZero` follows once the buffer is full.
- `Board` (`board.dfy`): the record, the runtime and the handler.
- `BoardProperties` (`properties.dfy`): lemmas relating whole runs.

The model follows the code:

- Errors are the code's `ProgramError` variants.
  - A failed signer check gives `MissingRequiredSignature`.
  - A holding account with the wrong owning program gives `IncorrectProgramId`.
  - A holding with the wrong owner, the wrong mint or a zero balance gives
    `InvalidAccountData`.
- An `unpack` failure is returned as the decoder's own error.
- A failure of the create call is returned as the runtime's or system
  program's own error.
- A serialization failure is `BorshIoError`.
- Loading the rent sysvar (line 48) is one more step that can fail. It comes
  after authorisation and before any call.
- The token program is whatever fourth account the caller passes; its key is
  never compared with the SPL-token program id, so a holding whose data any
  program of the caller's choosing wrote is accepted.
- The board account is not required to be uninitialised. Nothing in the
  handler reads or checks its existing data.

## Model

| member | source | states |
|---|---|---|
| AccountIter.NextAccountInfo | src/lib.rs:26 | one extraction yields the head of the remaining accounts and the rest, and fails with `NotEnoughAccountKeys` exactly when none remain |
| AccountIter.TakeAccounts | src/lib.rs:25-31 | consecutive extractions succeed exactly when enough accounts were supplied; they return the first n accounts in order and otherwise fail with `NotEnoughAccountKeys` |
| Board.ExtractAccounts | src/lib.rs:25-31 | the six roles are bound to positions 0..5 of the list, and fewer than six accounts fail with `NotEnoughAccountKeys` |
| Token.Authorize | src/lib.rs:33-45 | authorisation passes exactly when every check holds; the error is that of the first failing check in source order, with the decoder's error passed through unchanged |
| Token.AnyTokenProgramAccepted | src/lib.rs:39-42 | the holding's owning program is only compared with the account passed as the token program, so moving the holding to any other program passed in its place gives the same verdict |
| Provisioning.CreatePrivileges | src/lib.rs:53-66 | the runtime lets the create-account call through exactly when the payer's and the new account's first views are both writable and signed (by themselves or a derived address); an absent payer gives `MissingAccount` |
| Provisioning.FindKey | src/lib.rs:62-66 | the runtime matches an account the instruction names to the first passed view with that key, and finds none exactly when no view has it |
| Provisioning.CheckPrivileges | src/lib.rs:62-66 | the cross-program call is allowed exactly when every named account is passed with the signature and write access it needs; otherwise it fails with `MissingAccount` or `PrivilegeEscalation` |
| Provisioning.AllocationForgetsContents | src/lib.rs:53-66 | the created account keeps nothing of its former owner or data: views that agree on key, privileges and balance allocate to the same account |
| Provisioning.InvokeCreateAccount | src/lib.rs:62-66 | creation happens only with the privileges granted and the system program's approval; a new account that did not sign and is not covered by seeds makes it fail with `PrivilegeEscalation` |
| BorshWriter.WriteAll | src/lib.rs:76 | `write_all` into a slice writer lays down as much of the data as fits at the cursor, and succeeds exactly when all of it fits |
| BorshWriter.WriteChunks | src/lib.rs:76 | writing the encoding's chunks in order leaves as much of their concatenated encoding as fits, and succeeds exactly when the whole encoding fits |
| BorshWriter.Serialize | src/lib.rs:76 | serialization keeps the buffer length; on success the buffer starts with the encoding and the rest is unchanged; a too-short buffer gives `BorshIoError` |
| Board.WriteRecord | src/lib.rs:76 | the record's encoding lands at the start of the board's data, or the write fails with `BorshIoError` exactly when it does not fit |
| Board.ProvisionAndWrite | src/lib.rs:47-76 | the create request is made first; serialization happens only when creation succeeded; success leaves the encoding, then zeros, in a board owned by the program |
| Board.CreateBoard | src/lib.rs:19-79 | fewer than six accounts end the run with `NotEnoughAccountKeys` and no call; every failed check ends the run with its error and no call; a call is made exactly when every check passes |
| BoardProperties.UnsignedSenderRejected | src/lib.rs:34-36 | an unsigned sender gives `MissingRequiredSignature` and no call, whatever the other inputs |
| BoardProperties.OwnerProgramCheckedBeforeUnpack | src/lib.rs:39-42 | a holding account with the wrong owning program gives `IncorrectProgramId`, and the decoder does not influence the run |
| BoardProperties.UnpackErrorPropagated | src/lib.rs:42 | a holding that fails to decode ends the run with the decoder's error and no call |
| BoardProperties.HoldingMismatchRejected | src/lib.rs:43-45 | a wrong owner, a wrong mint or a zero balance gives `InvalidAccountData` and no call |
| BoardProperties.CreationRequestFields | src/lib.rs:48-59 | the request has payer = sender, new account = board, owner = program id, space = the fixed board size, lamports = that size's minimum balance |
| BoardProperties.RequestIgnoresUrl | src/lib.rs:49-59 | the requested size and balance do not depend on the url |
| BoardProperties.WriteOnlyAfterCreation | src/lib.rs:62-76 | the record is serialized only after creation succeeded, and it is exactly `{ true, sender, token, url }` |
| BoardProperties.SuccessCharacterised | src/lib.rs:19-79 | a run succeeds if and only if every check passes, the rent sysvar loads, creation succeeds and the encoded record fits the fixed size |
| BoardProperties.StoredRecordEncoding | src/lib.rs:68-76 | after success the board is the program's and its data is the record's encoding followed by zeros |
| BoardProperties.AuthorizationIgnoresOtherAccounts | src/lib.rs:33-45 | a failed authorisation depends only on the sender, holding and token-program accounts |
| BoardProperties.CreateIgnoresBoardData | src/lib.rs:62-66 | the create call's outcome does not depend on the board's existing data beyond the system program's own verdict |
| BoardProperties.ProvisionIgnoresBoardData | src/lib.rs:47-76 | creating and writing the board give the same run whatever data the board account held, unless the system program's verdict differs |
| BoardProperties.ExistingBoardDataIgnored | src/lib.rs:33-76 | the handler never reads the board's existing data, so an already initialised board gets no rejection of its own |
| BoardProperties.UnsignedBoardNotCreated | src/lib.rs:62-66 | with no seeds, an unsigned board account distinct from the sender is never created and nothing is written |
| BoardProperties.LongUrlNeverStored | src/lib.rs:49-76 | with a fixed size, a url longer than that size never yields a board; once creation succeeded, the write fails with `BorshIoError` |
| BoardProperties.ExtraAccountsIgnored | src/lib.rs:25-31 | accounts after the sixth do not affect the run |

## Left out

- The instruction decoder and the entrypoint are not part of this model. The code that turns the payload into `token` and `url` is not in `src/lib.rs`, whose line 17 is a placeholder comment.
- The `msg!` log line (line 78) is observability only.
- The SPL-token account layout and `TokenAccount::unpack` belong to the token program's library. Unpacking is an opaque partial function yielding `{ owner, mint, amount }`.
- The rent sysvar's decoding and the `minimum_balance` arithmetic are `solana_program` library code not in `src/lib.rs`; the arithmetic uses floating point. Both are opaque functions.
- `size_of::<MessageBoardInfo>()` depends on the Rust memory layout of `MessageBoardInfo`, whose declaration is not in `src/lib.rs`. It is an opaque `u64`.
- The Borsh encoding of the record is not modelled, because the declaration of `MessageBoardInfo`, and so its field order and types, is not in `src/lib.rs`. Decoding the stored record is therefore not modelled either. `StoredRecordEncoding` states what is stored instead.
- The system program's own checks are not modelled. These include insufficient funds, an account already in use, a payer that holds data and the size limit; its verdict is an opaque function of the request and the two accounts.
- Provisioning.AllocationForgetsContents: the lamport transfer from payer to board is not modelled, because the amounts the system program moves are its own accounting. Only the owner and the zeroed data of the board are stated.
- Provisioning.InvokeCreateAccount: does not model the runtime locating the system program among the passed accounts. Program loading is host behaviour.
- Host-level rollback of a failed instruction is not modelled. `Run.calls` records every call made, including those whose effects the host discards.
- `RefCell` borrow failures on account data are not modelled. The handler holds no overlapping borrows.
- The text of `BorshIoError` is not modelled. Only the variant is kept.
