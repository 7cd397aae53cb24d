/** The parts of the Solana program interface that `create_board` touches:
    keys, account views, the error type and the `ProgramResult` shape. */
module Solana {

  /** Rust's `u8`. */
  type byte = x: int | 0 <= x < 0x100

  /** Rust's `u64`: lamport balances, token amounts and account sizes. */
  type u64 = x: int | 0 <= x < 0x1_0000_0000_0000_0000

  /** A 32-byte public key (`Pubkey`). */
  type Pubkey = s: seq<byte> | |s| == 32 witness seq(32, _ => 0)

  /** The errors `create_board` can end with.  All but the last two are
      variants of `ProgramError`; `PrivilegeEscalation` and `MissingAccount`
      are the runtime's verdicts on a cross-program call whose account list
      does not grant what the called instruction needs, which abort the
      instruction just as a returned error does. */
  datatype ProgramError =
    | Custom(code: nat)
    | InvalidArgument
    | InvalidAccountData
    | UninitializedAccount
    | IncorrectProgramId
    | MissingRequiredSignature
    | NotEnoughAccountKeys
    | InsufficientFunds
    | BorshIoError
    | PrivilegeEscalation
    | MissingAccount

  /** `Result<T, ProgramError>`; usable with `:-` like Rust's `?`. */
  datatype Result<+T> = Ok(value: T) | Err(error: ProgramError) {
    predicate IsFailure() {
      Err?
    }

    function PropagateFailure<U>(): Result<U>
      requires Err?
    {
      Err(error)
    }

    function Extract(): T
      requires Ok?
    {
      value
    }
  }

  datatype Option<+T> = None | Some(value: T)

  /** The view of one account handed to the program (`AccountInfo`):
      the fields `create_board` reads, plus lamports for completeness. */
  datatype AccountInfo = AccountInfo(
    key: Pubkey,
    isSigner: bool,
    isWritable: bool,
    lamports: u64,
    data: seq<byte>,
    owner: Pubkey
  )

  /** `len` zero bytes: the data of a freshly allocated account. */
  function Zeros(len: nat): (r: seq<byte>)
    ensures |r| == len
    ensures forall i :: 0 <= i < len ==> r[i] == 0
  {
    seq(len, _ => 0)
  }
}
