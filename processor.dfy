/** The `InitEscrow` state transition (`Processor::process_init_escrow` in
    src/processor.rs): validate six accounts in order, write a fresh `Escrow`
    record into the escrow account, and ask the token program to hand the
    temporary token account over to the program-derived address. */
module EscrowProcessor {
  import opened Solana
  import opened EscrowState

  /** `AccountInfo`: immutable facts about an account plus its shared, writable data buffer. */
  datatype AccountInfo = AccountInfo(
    key: Pubkey,
    owner: Pubkey,
    isSigner: bool,
    lamports: U64,
    data: array<Byte>)

  /** An `AccountInfo` as it stands at one moment, its data copied out. */
  datatype AccountView = AccountView(
    key: Pubkey,
    owner: Pubkey,
    isSigner: bool,
    lamports: U64,
    data: seq<Byte>)

  function View(a: AccountInfo): (v: AccountView)
    reads a.data
  {
    AccountView(a.key, a.owner, a.isSigner, a.lamports, a.data[..])
  }

  function Views(accounts: seq<AccountInfo>): (vs: seq<AccountView>)
    reads set i | 0 <= i < |accounts| :: accounts[i].data
  {
    seq(|accounts|, i reads set i | 0 <= i < |accounts| :: accounts[i].data
                      requires 0 <= i < |accounts| => View(accounts[i]))
  }

  /** The seed `b"escrow"` of the program-derived address. */
  const ESCROW_SEED: seq<Byte> := [0x65, 0x73, 0x63, 0x72, 0x6f, 0x77]

  /** `spl_token::instruction::AuthorityType`. */
  datatype AuthorityType = MintTokens | FreezeAccount | AccountOwner | CloseAccount

  /** The arguments of `spl_token::instruction::set_authority`. */
  datatype SetAuthority = SetAuthority(
    tokenProgramId: Pubkey,
    ownedPubkey: Pubkey,
    newAuthority: Option<Pubkey>,
    authorityType: AuthorityType,
    ownerPubkey: Pubkey,
    signerPubkeys: seq<Pubkey>)

  /** One cross-program `invoke`: the instruction and the keys of the accounts handed over. */
  datatype Invocation = Invocation(instruction: SetAuthority, accountKeys: seq<Pubkey>)

  /** Whether `Rent::is_exempt(lamports, data_len)` holds, for one rent schedule. */
  type ExemptionTest = (U64, nat) -> bool

  /** The runtime around the program. Its oracles are fixed functions, so the same
      question always gets the same answer; the one thing that changes is the log of
      cross-program invocations. */
  class Runtime {
    /** `spl_token::id()`. */
    const tokenProgramId: Pubkey
    /** `Rent::from_account_info` on an account's key and data: `None` when it is not
        the rent sysvar, which the library reports as `InvalidArgument`. */
    const rentFromAccount: (Pubkey, seq<Byte>) -> Option<ExemptionTest>
    /** `Pubkey::find_program_address(seeds, program_id)`: the address and its bump seed. */
    const findProgramAddress: (seq<seq<Byte>>, Pubkey) -> (Pubkey, Byte)
    /** What building and invoking a `set_authority` instruction returns: `None` for success. */
    const invokeOutcome: Invocation -> Option<ProgramError>
    /** Every cross-program invocation requested so far, oldest first. */
    ghost var invocations: seq<Invocation>

    constructor (
      tokenProgramId: Pubkey,
      rentFromAccount: (Pubkey, seq<Byte>) -> Option<ExemptionTest>,
      findProgramAddress: (seq<seq<Byte>>, Pubkey) -> (Pubkey, Byte),
      invokeOutcome: Invocation -> Option<ProgramError>)
      ensures this.tokenProgramId == tokenProgramId
      ensures this.rentFromAccount == rentFromAccount
      ensures this.findProgramAddress == findProgramAddress
      ensures this.invokeOutcome == invokeOutcome
      ensures invocations == []
    {
      this.tokenProgramId := tokenProgramId;
      this.rentFromAccount := rentFromAccount;
      this.findProgramAddress := findProgramAddress;
      this.invokeOutcome := invokeOutcome;
      invocations := [];
    }

    /** `invoke`: records the call, then reports the token program's answer unchanged. */
    method Invoke(call: Invocation) returns (r: Result<()>)
      modifies this`invocations
      ensures invocations == old(invocations) + [call]
      ensures r == InvokeResult(call)
    {
      invocations := invocations + [call];
      r := if invokeOutcome(call).Some? then Err(invokeOutcome(call).value) else Ok(());
    }

    function InvokeResult(call: Invocation): (r: Result<()>)
    {
      if invokeOutcome(call).Some? then Err(invokeOutcome(call).value) else Ok(())
    }
  }

  /** `accounts.iter()` with `next_account_info`. */
  class AccountInfoIter {
    const items: seq<AccountInfo>
    var position: nat

    ghost predicate Valid()
      reads this
    {
      position <= |items|
    }

    constructor (items: seq<AccountInfo>)
      ensures Valid() && this.items == items && position == 0
    {
      this.items := items;
      position := 0;
    }

    /** `next_account_info`: the next account, or `NotEnoughAccountKeys` once they run out. */
    method Next() returns (r: Result<AccountInfo>)
      requires Valid()
      modifies this`position
      ensures Valid()
      ensures old(position) < |items| ==> r == Ok(items[old(position)]) && position == old(position) + 1
      ensures old(position) == |items| ==> r == Err(NotEnoughAccountKeys) && position == old(position)
    {
      if position == |items| {
        return Err(NotEnoughAccountKeys);
      }
      r := Ok(items[position]);
      position := position + 1;
    }
  }

  /** What one run of `process_init_escrow` does: its result, the escrow account's
      data afterwards if it was written, and the invocation it requested, if any. */
  datatype InitEffect = InitEffect(
    result: Result<()>,
    escrowData: Option<seq<Byte>>,
    invocation: Option<Invocation>)

  function Failed(e: ProgramError): (effect: InitEffect) {
    InitEffect(Err(e), None, None)
  }

  /** The record `process_init_escrow` writes. */
  function NewRecord(accounts: seq<AccountView>, amount: U64): (r: Escrow)
    requires |accounts| >= 3
    ensures r.IsInitialized()
    ensures Encode(r) == [1] + accounts[0].key + accounts[1].key + accounts[2].key
                         + ToLeBytes(amount, AMOUNT_BYTES)
  {
    Escrow(true, accounts[0].key, accounts[1].key, accounts[2].key, amount)
  }

  /** The program-derived address that becomes the temporary account's owner. */
  function EscrowAuthority(rt: Runtime, programId: Pubkey): (pda: Pubkey)
  {
    rt.findProgramAddress([ESCROW_SEED], programId).0
  }

  /** The `set_authority` invocation requested once the record is written. */
  function OwnerChange(rt: Runtime, accounts: seq<AccountView>, programId: Pubkey): (call: Invocation)
    requires |accounts| >= 6
  {
    var initializer, temp, tokenProgram := accounts[0], accounts[1], accounts[5];
    Invocation(
      SetAuthority(tokenProgram.key, temp.key, Some(EscrowAuthority(rt, programId)),
                   AccountOwner, initializer.key, [initializer.key]),
      [temp.key, initializer.key, tokenProgram.key])
  }

  /** The four checks of `process_init_escrow`, in order, on the accounts as they stand
      when it starts: the first one that fails gives the error; when all pass, the
      escrow account's current (uninitialized) record. */
  function Validation(rt: Runtime, accounts: seq<AccountView>): (r: Result<Escrow>)
    ensures r.Ok? ==> |accounts| >= 5
    ensures r.Ok? ==> accounts[0].isSigner && accounts[2].owner == rt.tokenProgramId
    ensures r.Ok? ==> (var rent := rt.rentFromAccount(accounts[4].key, accounts[4].data);
                       rent.Some? && rent.value(accounts[3].lamports, |accounts[3].data|))
    ensures r.Ok? ==> UnpackUnchecked(accounts[3].data) == Ok(r.value) && !r.value.IsInitialized()
    ensures r.Ok? ==> |accounts[3].data| == LEN
  {
    if |accounts| < 1 then Err(NotEnoughAccountKeys)
    else if !accounts[0].isSigner then Err(MissingRequiredSignature)
    else if |accounts| < 3 then Err(NotEnoughAccountKeys)
    else if accounts[2].owner != rt.tokenProgramId then Err(IncorrectProgramId)
    else if |accounts| < 5 then Err(NotEnoughAccountKeys)
    else
      var escrow, rentAccount := accounts[3], accounts[4];
      match rt.rentFromAccount(rentAccount.key, rentAccount.data)
      case None => Err(InvalidArgument)
      case Some(isExempt) =>
        if !isExempt(escrow.lamports, |escrow.data|) then Err(Custom(NotRentExempt))
        else match UnpackUnchecked(escrow.data)
          case Err(e) => Err(e)
          case Ok(current) =>
            if current.IsInitialized() then Err(AccountAlreadyInitialized) else Ok(current)
  }

  /** The behaviour of `process_init_escrow` on the accounts as they stand when it starts. */
  function InitEscrowEffect(rt: Runtime, accounts: seq<AccountView>, amount: U64, programId: Pubkey)
    : (r: InitEffect)
    ensures Validation(rt, accounts).Err? ==> r == Failed(Validation(rt, accounts).error)
    ensures r.escrowData.Some? <==> Validation(rt, accounts).Ok?
    ensures r.invocation.Some? ==> r.escrowData.Some?
    ensures r.result.Ok? ==> r.invocation.Some?
  {
    match Validation(rt, accounts)
    case Err(e) => Failed(e)
    case Ok(_) => WriteEffect(rt, accounts, amount, programId)
  }

  /** What follows the four checks: pack the new record, derive the authority, fetch
      the token program account and invoke it. */
  function WriteEffect(rt: Runtime, accounts: seq<AccountView>, amount: U64, programId: Pubkey)
    : (r: InitEffect)
    requires |accounts| >= 5
    ensures r.escrowData.Some? <==> |accounts[3].data| == LEN
    ensures r.escrowData.Some? ==> UnpackUnchecked(r.escrowData.value) == Ok(NewRecord(accounts, amount))
    ensures r.invocation.Some? <==> r.escrowData.Some? && |accounts| >= 6
    ensures r.invocation.Some? ==> r.invocation.value == OwnerChange(rt, accounts, programId)
                                   && r.result == rt.InvokeResult(r.invocation.value)
    ensures r.invocation.None? ==> r.result.Err?
  {
    match Packed(NewRecord(accounts, amount), accounts[3].data)
    case Err(e) => Failed(e)
    case Ok(written) =>
      if |accounts| < 6 then InitEffect(Err(NotEnoughAccountKeys), Some(written), None)
      else
        var call := OwnerChange(rt, accounts, programId);
        InitEffect(rt.InvokeResult(call), Some(written), Some(call))
  }

  /** The data buffers the transition may write: the escrow account's, if there is one. */
  function EscrowBuffer(accounts: seq<AccountInfo>): (buffers: set<array<Byte>>) {
    if |accounts| > 3 then {accounts[3].data} else {}
  }

  /** `process_init_escrow(accounts, amount, program_id)`. */
  method ProcessInitEscrow(rt: Runtime, accounts: seq<AccountInfo>, amount: U64, programId: Pubkey)
    returns (r: Result<()>)
    modifies rt`invocations, EscrowBuffer(accounts)
    ensures var effect := InitEscrowEffect(rt, old(Views(accounts)), amount, programId);
            && r == effect.result
            && (|accounts| > 3 ==>
                  accounts[3].data[..] == (if effect.escrowData.Some? then effect.escrowData.value
                                           else old(accounts[3].data[..])))
            && rt.invocations == old(rt.invocations)
                                 + if effect.invocation.Some? then [effect.invocation.value] else []
  {
    var iter := new AccountInfoIter(accounts);
    var checked := Validate(rt, iter);
    if checked.Err? {
      return Err(checked.error);
    }
    r := WriteRecordAndHandOver(rt, iter, checked.value, amount, programId);
  }

  /** The first half of `process_init_escrow`: take five accounts from `iter` and run
      the four checks; on success, the escrow account's current record. */
  method Validate(rt: Runtime, iter: AccountInfoIter) returns (r: Result<Escrow>)
    requires iter.Valid() && iter.position == 0
    modifies iter`position
    ensures iter.Valid()
    ensures r == Validation(rt, Views(iter.items))
    ensures r.Ok? ==> iter.position == 5
  {
    var next := iter.Next();
    if next.Err? { return Err(next.error); }
    var initializer := next.value;
    if !initializer.isSigner {
      return Err(MissingRequiredSignature);
    }

    next := iter.Next();
    if next.Err? { return Err(next.error); }

    next := iter.Next();
    if next.Err? { return Err(next.error); }
    var tokenToReceiveAccount := next.value;
    if tokenToReceiveAccount.owner != rt.tokenProgramId {
      return Err(IncorrectProgramId);
    }

    next := iter.Next();
    if next.Err? { return Err(next.error); }
    var escrowAccount := next.value;

    next := iter.Next();
    if next.Err? { return Err(next.error); }
    var rentAccount := next.value;
    var rent := rt.rentFromAccount(rentAccount.key, rentAccount.data[..]);
    if rent.None? {
      return Err(InvalidArgument);
    }
    if !rent.value(escrowAccount.lamports, escrowAccount.data.Length) {
      return Err(Custom(NotRentExempt));
    }

    var unpacked := UnpackUnchecked(escrowAccount.data[..]);
    if unpacked.Err? { return Err(unpacked.error); }
    var escrowInfo := unpacked.value;
    if escrowInfo.IsInitialized() {
      return Err(AccountAlreadyInitialized);
    }
    r := Ok(escrowInfo);
  }

  /** The second half of `process_init_escrow`, once five accounts have been taken
      from `iter` and checked: fill in `escrowInfo`, pack it into the escrow account,
      derive the authority, take the token program account and invoke it. */
  method WriteRecordAndHandOver(
    rt: Runtime, iter: AccountInfoIter, escrowInfo: Escrow, amount: U64, programId: Pubkey)
    returns (r: Result<()>)
    requires iter.Valid() && iter.position == 5
    modifies rt`invocations, iter`position, iter.items[3].data
    ensures var effect := WriteEffect(rt, old(Views(iter.items)), amount, programId);
            && r == effect.result
            && iter.items[3].data[..] == (if effect.escrowData.Some? then effect.escrowData.value
                                          else old(iter.items[3].data[..]))
            && rt.invocations == old(rt.invocations)
                                 + if effect.invocation.Some? then [effect.invocation.value] else []
  {
    ghost var before := Views(iter.items);
    var initializer, tempTokenAccount, tokenToReceiveAccount, escrowAccount :=
      iter.items[0], iter.items[1], iter.items[2], iter.items[3];

    var info := escrowInfo;
    info := info.(isInitialized := true);
    info := info.(initializerPubkey := initializer.key);
    info := info.(tempTokenAccountPubkey := tempTokenAccount.key);
    info := info.(initializerTokenToReceiveAccountPubkey := tokenToReceiveAccount.key);
    info := info.(expectedAmount := amount);
    assert info == NewRecord(before, amount);

    var packed := Pack(info, escrowAccount.data);
    if packed.Err? { return packed; }

    var pda := rt.findProgramAddress([ESCROW_SEED], programId).0;

    var next := iter.Next();
    if next.Err? { return Err(next.error); }
    var tokenProgram := next.value;
    var ownerChange := SetAuthority(
      tokenProgram.key, tempTokenAccount.key, Some(pda), AccountOwner,
      initializer.key, [initializer.key]);
    r := rt.Invoke(Invocation(ownerChange, [tempTokenAccount.key, initializer.key, tokenProgram.key]));
  }

  // ---------------------------------------------------------------
  // Properties of the transition
  // ---------------------------------------------------------------

  /** The four checks, all passing: signer, receiving account owned by the token
      program, escrow account rent-exempt, escrow record decodable and not yet initialized. */
  ghost predicate PassesValidation(rt: Runtime, accounts: seq<AccountView>) {
    && |accounts| >= 5
    && accounts[0].isSigner
    && accounts[2].owner == rt.tokenProgramId
    && (var rent := rt.rentFromAccount(accounts[4].key, accounts[4].data);
        rent.Some? && rent.value(accounts[3].lamports, |accounts[3].data|))
    && (var current := UnpackUnchecked(accounts[3].data);
        current.Ok? && !current.value.isInitialized)
  }

  /** Without the initializer's signature nothing happens. */
  lemma SignatureRequired(rt: Runtime, accounts: seq<AccountView>, amount: U64, programId: Pubkey)
    requires |accounts| >= 1 && !accounts[0].isSigner
    ensures InitEscrowEffect(rt, accounts, amount, programId) == InitEffect(Err(MissingRequiredSignature), None, None)
  {
  }

  /** A receiving account the token program does not own is refused, whatever follows it. */
  lemma ReceivingAccountOwnerChecked(rt: Runtime, accounts: seq<AccountView>, amount: U64, programId: Pubkey)
    requires |accounts| >= 3 && accounts[0].isSigner
    requires accounts[2].owner != rt.tokenProgramId
    ensures InitEscrowEffect(rt, accounts, amount, programId) == InitEffect(Err(IncorrectProgramId), None, None)
  {
  }

  /** An escrow account that is not rent-exempt is refused and left alone. */
  lemma RentExemptionRequired(rt: Runtime, accounts: seq<AccountView>, amount: U64, programId: Pubkey)
    requires |accounts| >= 5 && accounts[0].isSigner
    requires accounts[2].owner == rt.tokenProgramId
    requires rt.rentFromAccount(accounts[4].key, accounts[4].data).Some?
    requires !rt.rentFromAccount(accounts[4].key, accounts[4].data).value(accounts[3].lamports, |accounts[3].data|)
    ensures InitEscrowEffect(rt, accounts, amount, programId) == InitEffect(Err(Custom(NotRentExempt)), None, None)
  {
  }

  /** An escrow account that already holds an initialized record is refused and left alone. */
  lemma AlreadyInitializedRefused(rt: Runtime, accounts: seq<AccountView>, amount: U64, programId: Pubkey)
    requires |accounts| >= 5 && accounts[0].isSigner
    requires accounts[2].owner == rt.tokenProgramId
    requires var rent := rt.rentFromAccount(accounts[4].key, accounts[4].data);
             rent.Some? && rent.value(accounts[3].lamports, |accounts[3].data|)
    requires UnpackUnchecked(accounts[3].data).Ok? && UnpackUnchecked(accounts[3].data).value.isInitialized
    ensures InitEscrowEffect(rt, accounts, amount, programId) == InitEffect(Err(AccountAlreadyInitialized), None, None)
  {
  }

  /** Too few accounts for the checks that can run: the end-of-input error, and nothing happens. */
  lemma TooFewAccounts(rt: Runtime, accounts: seq<AccountView>, amount: U64, programId: Pubkey)
    requires |accounts| < 5
    requires |accounts| >= 1 ==> accounts[0].isSigner
    requires |accounts| >= 3 ==> accounts[2].owner == rt.tokenProgramId
    ensures InitEscrowEffect(rt, accounts, amount, programId) == InitEffect(Err(NotEnoughAccountKeys), None, None)
  {
  }

  /** A fifth account that is not the rent sysvar is refused with `InvalidArgument`. */
  lemma NotRentSysvar(rt: Runtime, accounts: seq<AccountView>, amount: U64, programId: Pubkey)
    requires |accounts| >= 5 && accounts[0].isSigner
    requires accounts[2].owner == rt.tokenProgramId
    requires rt.rentFromAccount(accounts[4].key, accounts[4].data).None?
    ensures InitEscrowEffect(rt, accounts, amount, programId) == InitEffect(Err(InvalidArgument), None, None)
  {
  }

  /** Escrow data that is not 105 bytes, or whose flag byte is neither 0 nor 1, is
      refused with `InvalidAccountData` and left alone. */
  lemma MalformedRecord(rt: Runtime, accounts: seq<AccountView>, amount: U64, programId: Pubkey)
    requires |accounts| >= 5 && accounts[0].isSigner
    requires accounts[2].owner == rt.tokenProgramId
    requires var rent := rt.rentFromAccount(accounts[4].key, accounts[4].data);
             rent.Some? && rent.value(accounts[3].lamports, |accounts[3].data|)
    requires |accounts[3].data| != LEN || (accounts[3].data[IS_INITIALIZED_AT] != 0 && accounts[3].data[IS_INITIALIZED_AT] != 1)
    ensures InitEscrowEffect(rt, accounts, amount, programId) == InitEffect(Err(InvalidAccountData), None, None)
  {
  }

  /** The escrow account is written exactly when every check passes; a run that
      fails a check issues no invocation either. */
  lemma WrittenIffValidated(rt: Runtime, accounts: seq<AccountView>, amount: U64, programId: Pubkey)
    ensures var effect := InitEscrowEffect(rt, accounts, amount, programId);
            && (effect.escrowData.Some? <==> PassesValidation(rt, accounts))
            && (effect.invocation.Some? ==> effect.escrowData.Some?)
            && (effect.result.Ok? ==> effect.invocation.Some?)
  {
  }

  /** What is written is the new record: initialized, naming the initializer, the
      temporary token account and the receiving account, and asking for `amount`. */
  lemma WrittenRecord(rt: Runtime, accounts: seq<AccountView>, amount: U64, programId: Pubkey)
    requires InitEscrowEffect(rt, accounts, amount, programId).escrowData.Some?
    ensures var written := InitEscrowEffect(rt, accounts, amount, programId).escrowData.value;
            && |accounts| >= 5
            && |written| == |accounts[3].data| == LEN
            && UnpackUnchecked(written)
               == Ok(Escrow(true, accounts[0].key, accounts[1].key, accounts[2].key, amount))
  {
  }

  /** A successful run issues exactly one invocation: `set_authority` on the temporary
      token account, moving its `AccountOwner` authority from the initializer to the
      address derived from `b"escrow"` and the program id, signed by the initializer. */
  lemma SuccessHandsOverTempAccount(rt: Runtime, accounts: seq<AccountView>, amount: U64, programId: Pubkey)
    requires InitEscrowEffect(rt, accounts, amount, programId).result.Ok?
    ensures |accounts| >= 6
    ensures var effect := InitEscrowEffect(rt, accounts, amount, programId);
            var pda := rt.findProgramAddress([ESCROW_SEED], programId).0;
            && effect.escrowData.Some?
            && effect.invocation == Some(Invocation(
                 SetAuthority(accounts[5].key, accounts[1].key, Some(pda), AccountOwner,
                              accounts[0].key, [accounts[0].key]),
                 [accounts[1].key, accounts[0].key, accounts[5].key]))
            && rt.invokeOutcome(effect.invocation.value).None?
  {
  }

  /** The record is written before the token program account is fetched and before the
      invocation: with only five accounts, or a failing invocation, the run fails with
      the escrow account already overwritten. */
  lemma WrittenBeforeInvocation(rt: Runtime, accounts: seq<AccountView>, amount: U64, programId: Pubkey)
    requires PassesValidation(rt, accounts)
    ensures var effect := InitEscrowEffect(rt, accounts, amount, programId);
            && effect.escrowData.Some?
            && (|accounts| == 5 ==> effect.result == Err(NotEnoughAccountKeys) && effect.invocation.None?)
            && (|accounts| >= 6 ==>
                  var call := OwnerChange(rt, accounts, programId);
                  && effect.invocation == Some(call)
                  && (rt.invokeOutcome(call).Some? ==> effect.result == Err(rt.invokeOutcome(call).value)))
  {
  }

  /** No double initialization: once a run has written the escrow account, any later
      run on that data fails without writing or invoking anything, and when the
      earlier checks pass it fails with `AccountAlreadyInitialized`. */
  lemma SecondInitializationFails(
    rt: Runtime, first: seq<AccountView>, amount: U64, programId: Pubkey,
    second: seq<AccountView>, amount2: U64)
    requires InitEscrowEffect(rt, first, amount, programId).escrowData.Some?
    requires |second| >= 4 && second[3].data == InitEscrowEffect(rt, first, amount, programId).escrowData.value
    ensures var effect := InitEscrowEffect(rt, second, amount2, programId);
            && effect.result.Err? && effect.escrowData.None? && effect.invocation.None?
            && (|second| >= 5 && second[0].isSigner && second[2].owner == rt.tokenProgramId
                && rt.rentFromAccount(second[4].key, second[4].data).Some?
                && rt.rentFromAccount(second[4].key, second[4].data).value(second[3].lamports, |second[3].data|)
                ==> effect.result == Err(AccountAlreadyInitialized))
  {
  }

  /** A run on a freshly allocated, zeroed, rent-exempt 105-byte escrow account with
      six well-formed accounts initializes it, provided the token program accepts the call. */
  lemma FreshAccountInitializes(rt: Runtime, accounts: seq<AccountView>, amount: U64, programId: Pubkey)
    requires |accounts| >= 6 && accounts[0].isSigner
    requires accounts[2].owner == rt.tokenProgramId
    requires accounts[3].data == seq(LEN, _ => 0 as Byte)
    requires var rent := rt.rentFromAccount(accounts[4].key, accounts[4].data);
             rent.Some? && rent.value(accounts[3].lamports, LEN)
    requires rt.invokeOutcome(OwnerChange(rt, accounts, programId)).None?
    ensures var effect := InitEscrowEffect(rt, accounts, amount, programId);
            && effect.result == Ok(())
            && effect.escrowData == Some(Encode(NewRecord(accounts, amount)))
            && effect.invocation == Some(OwnerChange(rt, accounts, programId))
  {
  }
}
