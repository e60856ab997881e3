/** The pieces of the Solana runtime library that the escrow program uses:
    bytes, 64-bit amounts, public keys, program errors and fallible results. */
module Solana {

  /** One byte of account data, Rust's `u8`. */
  newtype Byte = x: int | 0 <= x < 256

  const U64_LIMIT: nat := 0x1_0000_0000_0000_0000

  /** Rust's `u64`. */
  type U64 = x: int | 0 <= x < U64_LIMIT

  const PUBKEY_BYTES: nat := 32

  /** `Pubkey`: exactly 32 bytes, every pattern allowed. */
  type Pubkey = s: seq<Byte> | |s| == PUBKEY_BYTES witness seq(32, _ => 0 as Byte)

  datatype Option<T> = None | Some(value: T)

  /** The program-specific errors; `EscrowError::NotRentExempt.into()` becomes
      `ProgramError::Custom(..)`, whose number is defined outside this model. */
  datatype EscrowError = NotRentExempt

  /** The `ProgramError` variants the escrow program can return. */
  datatype ProgramError =
    | NotEnoughAccountKeys
    | MissingRequiredSignature
    | IncorrectProgramId
    | InvalidArgument
    | InvalidAccountData
    | AccountAlreadyInitialized
    | Custom(escrowError: EscrowError)
    /** The intended shape of an error the token program returns through `invoke`:
        on chain it is `ProgramError::Custom(code)` with the token program's own code.
        The invocation oracle may return any `ProgramError`, this one included. */
    | TokenProgram(tokenError: nat)

  /** `Result<T, ProgramError>`; `ProgramResult` is `Result<()>`. */
  datatype Result<T> = Ok(value: T) | Err(error: ProgramError)
}
