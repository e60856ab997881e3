# Escrow program: the `Escrow` record and the `InitEscrow` transition

A Dafny model of the on-chain part of a Solana token-swap escrow program
(whalelephant/sol-escrow-example). Party A locks tokens in a temporary token
account and records the terms of the swap in an escrow account. The program
has two parts:

- **The `Escrow` record** (`src/state.rs`). It has a fixed 105-byte layout:
  one flag byte, three 32-byte public keys and a little-endian `u64` amount.
  `unpack_from_slice` decodes it and `pack_into_slice` writes it into an
  account's data buffer in place.
- **`process_init_escrow`** (`src/processor.rs`). It walks the account list
  and checks four things in order: the initializer signed, the token program
  owns the receiving account, the escrow account is rent-exempt, and the
  escrow account is not already initialized. It then writes a fresh record
  into the escrow account's buffer and asks the token program to move the
  temporary account's owner authority to the program-derived address.

Files:

- `solana.dfy` (module `Solana`): the runtime types. These are bytes, `u64`,
  32-byte public keys, the `ProgramError` variants the program returns, and
  `Result`.
- `state.dfy` (module `EscrowState`): the record and its codec.
  - The layout is stated as a pure function `Encode`.
  - `UnpackFromSlice` is a function.
  - `PackIntoSlice` is a method that writes an `array<Byte>` (`Byte` is `u8`) in place and is
    proved against `Encode`.
  - The round trips are proved in both directions.
  - `Pack::pack` and `Pack::unpack_unchecked` are the runtime library's
    default `Pack` methods, not part of `src/state.rs`. The processor calls
    them, so they are modelled with the library's length check (any length
    other than 105 gives `InvalidAccountData`).
- `processor.dfy` (module `EscrowProcessor`): the transition.
  - `AccountInfo` is a record whose data buffer is a shared `array<Byte>` (`Byte` is `u8`).
  - `AccountInfoIter` is `accounts.iter()` with `next_account_info`.
  - `Runtime` is a class holding the outside world:
    - `spl_token::id()`;
    - `Rent::from_account_info` together with `Rent::is_exempt`, as an
      uninterpreted function;
    - `Pubkey::find_program_address`, as an uninterpreted deterministic
      function of the seeds and the program id;
    - the outcome of the cross-program call;
    - a ghost log of every invocation requested. A request whose
      `set_authority` instruction fails to build is logged too, with the
      build error as its outcome.
  - `ProcessInitEscrow` is the imperative method. Its postcondition ties its
    result, the escrow buffer and the log to the pure function
    `InitEscrowEffect`, evaluated on a snapshot of the accounts taken at
    entry. The lemmas state the program's guarantees about that function.
  - The method body is split at the point where the checks end: `Validate`
    runs the four checks (specified by `Validation`), and
    `WriteRecordAndHandOver` writes the record and invokes the token program
    (specified by `WriteEffect`). The two halves run in the source's order on
    one shared account iterator.

Notes on what the code does:

- The errors are the code's `ProgramError` values: `MissingRequiredSignature`,
  `IncorrectProgramId`, `AccountAlreadyInitialized`, `InvalidAccountData`,
  and `Custom(NotRentExempt)` for `EscrowError::NotRentExempt.into()`.
  `Custom` holds the program's error enum, because the numeric code is
  defined in `error.rs`, which is not part of this model.
- The code checks the owner of the receiving account only. It does not check
  the owner of the temporary token account.
- The code does not fail with "no state change" on every path after
  validation:
  - With exactly five accounts the record is written, and then fetching the
    token program account fails with `NotEnoughAccountKeys`.
  - A failing invocation also returns its error after the write.
  - `WrittenBeforeInvocation` states both cases.
  - Undoing the write is left to the runtime's transaction rollback.
- A fifth account that is not the rent sysvar fails with `InvalidArgument`.
  This comes from `Rent::from_account_info`; `NotRentSysvar` states it.

## Model

| member | source | states |
|---|---|---|
| EscrowState.Encode | src/state.rs:34 | the packed record is always `LEN` = 105 = 1 + 3·32 + 8 bytes |
| EscrowState.ToLeBytes | src/state.rs:86 | `to_le_bytes` of an amount is exactly 8 bytes, the width of its slot at 97..105 |
| EscrowState.FromLeBytes | src/state.rs:66 | `from_le_bytes` of any 8 bytes is below 2^64, so every amount pattern is a valid `u64` |
| EscrowState.FromLeBytesOfToLeBytes | src/state.rs:86 | little-endian decoding inverts `to_le_bytes` for every value that fits |
| EscrowState.ToLeBytesOfFromLeBytes | src/state.rs:66 | re-encoding a decoded little-endian value gives back the same bytes |
| EscrowState.UnpackFromSlice | src/state.rs:37-68 | decoding fails exactly when the flag byte is neither 0 nor 1, and then with `InvalidAccountData`; otherwise the flag is true iff the byte is 1 |
| EscrowState.UnpackUnchecked | src/processor.rs:87 | a buffer whose length is not 105 is refused with `InvalidAccountData`; a 105-byte buffer is decoded by `unpack_from_slice` |
| EscrowState.EncodeLayout | src/state.rs:72-86 | the flag (0 or 1) is at byte 0, the three keys at 1..33, 33..65 and 65..97, and the amount's little-endian bytes at 97..105 |
| EscrowState.Escrow.IsInitialized | src/state.rs:27-30 | `is_initialized()` is true exactly when the record's packed flag byte is 1, and false exactly when it is 0 |
| EscrowState.IsInitializedIsFlagByte | src/state.rs:27-67 | a record decoded from 105 bytes is initialized exactly when byte 0 is 1, and uninitialized exactly when it is 0 |
| EscrowState.RoundTrip | src/state.rs:37-87 | decoding the packed bytes of any record gives back that record |
| EscrowState.EncodeOfDecode | src/state.rs:37-87 | packing a record decoded from 105 bytes gives back those 105 bytes |
| EscrowState.UnpackReadsPrefix | src/state.rs:39 | `unpack_from_slice` looks only at the first 105 bytes of a longer slice |
| EscrowState.AnyFieldBytesDecode | src/state.rs:59-67 | any three 32-byte key patterns and any 8 amount bytes decode without error, under either valid flag |
| EscrowState.ZeroedAccountIsUninitialized | src/state.rs:51-67 | an all-zero 105-byte account decodes as an uninitialized record with zero keys and amount |
| EscrowState.CopyFromSlice | src/state.rs:82-86 | `copy_from_slice` writes its window with the source bytes and changes no other byte |
| EscrowState.PackIntoSlice | src/state.rs:70-87 | bytes 0..105 of the buffer become the record's encoding; bytes beyond 105 are untouched |
| EscrowState.Packed | src/processor.rs:100 | packing into a buffer fails exactly when its length is not 105; on success the buffer decodes to the packed record |
| EscrowState.Pack | src/processor.rs:100 | `Escrow::pack` leaves a wrong-length buffer untouched with `InvalidAccountData`, and otherwise overwrites it with the encoding |
| EscrowProcessor.AccountInfoIter.Next | src/processor.rs:45-48 | `next_account_info` yields the accounts in order and then `NotEnoughAccountKeys` |
| EscrowProcessor.Runtime.Invoke | src/processor.rs:127-134 | the cross-program call is appended to the log, and its outcome is returned unchanged |
| EscrowProcessor.Validation | src/processor.rs:45-90 | the four checks in order on the accounts at entry: when all pass, the initializer signed, the token program owns the receiving account, the fifth account is the rent sysvar and the escrow account is exempt, and the escrow account's 105 bytes decode to an uninitialized record, which is returned |
| EscrowProcessor.NewRecord | src/processor.rs:93-97 | the record filled in before packing is initialized, and packs to flag 1, the initializer, temporary and receiving account keys, and the amount's little-endian bytes |
| EscrowProcessor.WriteEffect | src/processor.rs:92-135 | after the checks: the buffer is written exactly when it has 105 bytes, and then decodes to the new record; the owner change `OwnerChange` (a `set_authority(AccountOwner)` on the temporary account whose new authority is `EscrowAuthority`, the address derived from `b"escrow"` and the program id) is requested exactly when the buffer was written and a sixth account exists, and its outcome is the run's result; with no invocation the run fails |
| EscrowProcessor.InitEscrowEffect | src/processor.rs:32-136 | a failed check gives its error with no write and no invocation; the buffer is written exactly when the checks pass; an invocation comes only after a write, and success only after an invocation |
| EscrowProcessor.ProcessInitEscrow | src/processor.rs:32-136 | the result, the escrow account's new data and the invocations requested are those of `InitEscrowEffect` on the accounts at entry |
| EscrowProcessor.Validate | src/processor.rs:45-90 | taking five accounts and running the four checks gives `Validation`: the first failing check's error, or the escrow account's current uninitialized record |
| EscrowProcessor.WriteRecordAndHandOver | src/processor.rs:92-135 | filling in and packing the record, deriving the authority, taking the sixth account and invoking give `WriteEffect`: the written buffer, the one invocation and its result |
| EscrowProcessor.SignatureRequired | src/processor.rs:48-51 | a non-signing initializer gives `MissingRequiredSignature` with no write and no invocation |
| EscrowProcessor.ReceivingAccountOwnerChecked | src/processor.rs:60-63 | a receiving account not owned by the token program gives `IncorrectProgramId` with no write and no invocation |
| EscrowProcessor.RentExemptionRequired | src/processor.rs:73-80 | an escrow account failing the exemption test gives `Custom(NotRentExempt)` with no write and no invocation |
| EscrowProcessor.AlreadyInitializedRefused | src/processor.rs:87-90 | an escrow account whose data decodes as initialized gives `AccountAlreadyInitialized` with no write and no invocation |
| EscrowProcessor.TooFewAccounts | src/processor.rs:48-73 | fewer than five accounts, with every check that can run passing, gives `NotEnoughAccountKeys` with no write and no invocation |
| EscrowProcessor.NotRentSysvar | src/processor.rs:73 | a fifth account that is not the rent sysvar, after the first two checks pass, gives `InvalidArgument` with no write and no invocation |
| EscrowProcessor.MalformedRecord | src/processor.rs:87 | escrow data that is not 105 bytes long or whose flag byte is neither 0 nor 1, after the first three checks pass, gives `InvalidAccountData` with no write and no invocation |
| EscrowProcessor.WrittenIffValidated | src/processor.rs:48-100 | the escrow account is written exactly when all four checks pass, in order; a run that issues an invocation has written, and only a run that invoked can succeed |
| EscrowProcessor.WrittenRecord | src/processor.rs:92-100 | the written 105 bytes decode to `is_initialized = true`, the initializer, temporary and receiving account keys, and `amount` |
| EscrowProcessor.SuccessHandsOverTempAccount | src/processor.rs:107-135 | success means exactly one `set_authority` on the temporary account, moving `AccountOwner` from the initializer to the address derived from `b"escrow"` and the program id, accepted by the token program |
| EscrowProcessor.WrittenBeforeInvocation | src/processor.rs:100-134 | once the checks pass the record is written; with five accounts the run then fails with `NotEnoughAccountKeys`, and a failing invocation's error is returned after the write |
| EscrowProcessor.SecondInitializationFails | src/processor.rs:87-100 | any run on data a previous run wrote fails without writing or invoking, with `AccountAlreadyInitialized` once the earlier checks pass |
| EscrowProcessor.FreshAccountInitializes | src/processor.rs:32-136 | on six well-formed accounts with a zeroed, rent-exempt 105-byte escrow account and an accepting token program, the run succeeds, writes the new record and issues the authority change |

## Left out

- `Processor::process` and `EscrowInstruction::unpack`: the instruction
  decoder is in `instructions.rs`, which is not part of this model. The
  decoded `amount` is an input of `ProcessInitEscrow`.
- The numeric code of `EscrowError::NotRentExempt`: `error.rs` is not part of
  this model, so the error is kept as `Custom(NotRentExempt)`.
- `Pubkey::find_program_address`: modelled as a fixed function of seeds and
  program id. Its SHA-256 and off-curve search are not modelled. Deriving
  twice gives the same address because it is a function; the bump seed is
  discarded, as in the code.
- `Rent::from_account_info` and `Rent::is_exempt`: modelled as a function
  from the fifth account's key and data to an exemption test, or to `None`
  (`InvalidArgument`). The rent formula uses floating point and is not
  modelled.
- Building the `set_authority` instruction (`spl_token::instruction::set_authority`,
  which can itself fail, for example on a wrong token program id) and
  `invoke`: their combined outcome is one oracle, `invokeOutcome`. The model
  records what is requested in a ghost log; the token program's effect on the
  temporary account is not modelled.
- The runtime's transaction-level rollback: the model shows the buffer as the
  program leaves it when it returns an error.
- `msg!` logging, and failures of `try_borrow_data` / `try_borrow_mut_data`
  (`RefCell` borrow errors): runtime plumbing.
- Lamport balances are read but never changed by the program. Of the program's
  own writes, only the escrow account's data buffer is written. The token
  program's `set_authority` then rewrites the owner field in the temporary
  account's data. The model does not show that write, so after a successful run
  the frame of `ProcessInitEscrow` leaves the temporary account's buffer as it was.
- UnpackFromSlice and PackIntoSlice require at least 105 bytes. On a shorter
  slice `array_ref!` / `array_mut_ref!` panic, and the panic is not modelled.
  No run of `process_init_escrow` reaches it, because `unpack_unchecked` and
  `pack` check the length first (`UnpackUnchecked`, `Pack`).
- Exchange and cancel transitions: they do not exist in the program.
- Distinct keys for the temporary, receiving and escrow accounts: the program
  does not check this, and the model does not add the check.
