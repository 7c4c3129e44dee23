/** The client-side bookkeeping of the VeriChain document verifier: the upload
    workflow (stage a file, hash it, store the hash), verification of a file
    or a typed hash, the owner's administrative operations and the read-only
    queries. The contract, the wallet and the file reader are not modelled:
    what they answer arrives as a Reply parameter, and every contract call the
    client issues is appended to the ghost trace `calls`. */
module Verifier {
  import opened Common
  import opened Hex
  import opened JsString
  import opened Helpers

  /** The network (Ganache) whose deployment address the client looks up. */
  const NetworkId := "5777"

  const StepCount := 4

  /** The progress steps after a reset: step 1 in progress, the others pending. */
  const ResetSteps := [Active, Cleared, Cleared, Cleared]

  /** The part of VeriChain.json the client reads: the interface and the
      deployment address per network id. */
  datatype Descriptor = Descriptor(abi: string, networks: map<string, string>)

  /** The web3 contract object, bound to an interface and an address. */
  datatype ContractClient = ContractClient(abi: string, address: string)

  /** What findDocHash returns for a stored hash. */
  datatype DocRecord = DocRecord(blockNumber: nat, timestamp: nat, exporterInfo: string, ipfsHash: string)

  /** A contract call as issued by the client: a read (`call()`), a gas
      estimate (`estimateGas`) or a transaction (`send`), the last two from
      the connected account. */
  datatype Call =
    | Read(name: string, args: seq<string>)
    | EstimateGas(name: string, args: seq<string>, from: string)
    | Send(name: string, args: seq<string>, from: string, gas: Option<nat>)

  /** Every transaction sent with an explicit gas limit comes right after the
      estimate of the same call from the same account. */
  ghost predicate EstimatedSends(calls: seq<Call>)
  {
    forall i :: 0 <= i < |calls| && calls[i].Send? && calls[i].gas.Some? ==>
      0 < i && calls[i - 1] == EstimateGas(calls[i].name, calls[i].args, calls[i].from)
  }

  // Messages shown when a guard stops an operation before any call
  const SelectFileFirst := "Please select a file first"
  const GenerateHashFirst := "Please generate document hash first"
  const ConnectWalletFirst := "Please connect your wallet first"
  const EnterHashPrompt := "Please enter a document hash"
  const EnterDocHash := "Please enter document hash"
  const HashLengthError := "Hash must be exactly 64 characters long"
  const FillAllFields := "Please fill in all fields"
  const EnterExporterAddress := "Please enter exporter address"
  const EnterNewOwner := "Please enter new owner address"
  const OwnerOnlyAdd := "Only contract owner can add exporters"
  const OwnerOnlyModify := "Only contract owner can modify exporters"
  const OwnerOnlyDelete := "Only contract owner can delete exporters"
  const OwnerOnlyTransfer := "Only contract owner can transfer ownership"
  const NoProvider := "MetaMask not found. Please install MetaMask browser extension."
  const NotLoaded := "Contract not loaded. Please ensure VeriChain.json is loaded first."
  const AddressMissing := "Contract address not found for network 5777 in VeriChain.json"

  // Default storage references and hash sources
  const NoIpfsReference := "Document hash only"
  const ManualIpfsReference := "Manual hash entry"
  const ManualSource := "Manual hash input"

  // Activity-log categories
  const SystemCategory := "System"
  const StorageCategory := "Document Storage"
  const VerificationCategory := "Document Verification"
  const AddExporterCategory := "Add Exporter"
  const ModifyExporterCategory := "Modify Exporter"
  const RemoveExporterCategory := "Remove Exporter"
  const TransferCategory := "Transfer Ownership"
  const AddHashCategory := "Add Document Hash"
  const DeleteHashCategory := "Delete Document Hash"
  const ConnectedNote := "Connected to VeriChain contract"

  /** How a user operation ended: done; stopped by a client-side guard before
      any call (the text is the error shown); declined at the confirmation
      prompt; or failed with the message of the error that was caught. */
  datatype Status = Done | Rejected(reason: string) | Cancelled | Failed(message: string)

  /** The answer of a read-only operation, with the same guard and error cases. */
  datatype Query<+T> = Answer(value: T) | Refused(reason: string) | Errored(message: string)

  datatype Purpose = Upload | Verify

  datatype FileOutcome = Unsupported | Staged | Checked(verdict: Query<Option<DocRecord>>)

  /** The TypeError raised when a call is made through a contract that was never set. */
  const NullContract := "Cannot read properties of null (reading 'methods')"

  /** A 32-byte hash argument: the hexadecimal text behind "0x". */
  function HashArg(hash: string): string
  {
    "0x" + hash
  }

  function AsQuery<T>(reply: Reply<T>): Query<T>
  {
    match reply
    case Ok(v) => Answer(v)
    case Fail(m) => Errored(m)
  }

  /** The calls a verification issues: findDocHash only once documentExists said yes. */
  function VerifyCalls(hash: string, present: Reply<bool>): seq<Call>
  {
    [Read("documentExists", [HashArg(hash)])]
      + (if present == Ok(true) then [Read("findDocHash", [HashArg(hash)])] else [])
  }

  /** documentExists is always asked first, and findDocHash is asked exactly
      when it answered yes. */
  lemma FindOnlyWhenExists(hash: string, present: Reply<bool>)
    ensures VerifyCalls(hash, present)[0] == Read("documentExists", [HashArg(hash)])
    ensures Read("findDocHash", [HashArg(hash)]) in VerifyCalls(hash, present) <==> present == Ok(true)
  {
  }

  /** A verification's verdict: the record when the hash exists, None when it does not. */
  function VerifyVerdict(present: Reply<bool>, record: Reply<DocRecord>): Query<Option<DocRecord>>
  {
    match present
    case Fail(m) => Errored(m)
    case Ok(found) =>
      if !found then Answer(None)
      else match record
        case Fail(m) => Errored(m)
        case Ok(r) => Answer(Some(r))
  }

  function VerifyLogEntry(source: string, present: Reply<bool>, record: Reply<DocRecord>): LogEntry
  {
    match present
    case Fail(m) => LogEntry(Error, VerificationCategory, "Error: " + m, None)
    case Ok(found) =>
      if !found then LogEntry(Warning, VerificationCategory, "Not found: " + source, None)
      else match record
        case Fail(m) => LogEntry(Error, VerificationCategory, "Error: " + m, None)
        case Ok(_) => LogEntry(Success, VerificationCategory, "Verified: " + source, None)
  }

  /** The calls loadContractData issues for `account`: owner(), then
      isExporter(account), then the statistics refresh. */
  function LoadDataCalls(account: string, owner: Reply<string>, isExporter: Reply<bool>): seq<Call>
  {
    [Read("owner", [])]
      + (if owner.Fail? then []
         else [Read("isExporter", [account])] + (if isExporter.Fail? then [] else [Read("getStats", [])]))
  }

  /** The role after loadContractData: derived when both answers came, kept otherwise. */
  function LoadedRole(role: Role, account: string, owner: Reply<string>, isExporter: Reply<bool>): Role
  {
    if owner.Ok? && isExporter.Ok? then DeriveRole(owner.value, account, isExporter.value) else role
  }

  function LoadedLog(log: seq<LogEntry>, owner: Reply<string>, isExporter: Reply<bool>): seq<LogEntry>
  {
    if owner.Ok? && isExporter.Ok? then Logged(log, LogEntry(Info, SystemCategory, ConnectedNote, None))
    else log
  }

  function LoadStatus(owner: Reply<string>, isExporter: Reply<bool>): Status
  {
    if owner.Fail? then Failed(owner.message)
    else if isExporter.Fail? then Failed(isExporter.message)
    else Done
  }

  class VeriChainDocumentVerifier {
    /** crypto.subtle.digest('SHA-256', ·) */
    const digest: Digester
    /** The four upload progress steps; step n is at index n - 1. */
    const steps: array<StepStatus>
    var contractAbi: Option<string>
    var contractAddress: Option<string>
    var contract: Option<ContractClient>
    var accounts: seq<string>
    var currentUserRole: Role
    var currentFile: Option<File>
    var currentHash: Option<string>
    /** The activity log, newest entry first. */
    var log: seq<LogEntry>
    /** Every contract call issued so far, oldest first. */
    ghost var calls: seq<Call>

    ghost predicate Valid()
      reads this
    {
      && steps.Length == StepCount
      && |log| <= MaxLogEntries
      && (currentHash.Some? ==>
            currentFile.Some? && |currentHash.value| == 64 && IsLowerHex(currentHash.value))
      && (contract.Some? ==> accounts != [])
      && (currentUserRole != Unknown ==> contract.Some?)
      && EstimatedSends(calls)
    }

    /** VeriChain.json gave both an interface and an address. */
    predicate ContractLoaded()
      reads this
    {
      contractAddress.Some? && contractAddress.value != "" && contractAbi.Some?
    }

    /** The fields as the client's constructor sets them. The constructor
        then starts init() without waiting for it; here that start-up is the
        separate method Init. */
    constructor (digest: Digester)
      ensures Valid() && fresh(steps) && steps[..] == ResetSteps
      ensures this.digest == digest
      ensures contractAbi.None? && contractAddress.None? && contract.None? && accounts == []
      ensures currentUserRole == Unknown && currentFile.None? && currentHash.None?
      ensures log == [] && calls == []
    {
      this.digest := digest;
      steps := new StepStatus[StepCount](i => if i == 0 then Active else Cleared);
      contractAbi, contractAddress, contract, accounts := None, None, None, [];
      currentUserRole, currentFile, currentHash := Unknown, None, None;
      log, calls := [], [];
      new;
      assert steps[..] == ResetSteps;
    }

    /** Records a contract call; a transaction with a gas limit may only follow its estimate. */
    ghost method Issue(call: Call)
      requires EstimatedSends(calls)
      requires call.Send? && call.gas.Some? ==>
                 calls != [] && calls[|calls| - 1] == EstimateGas(call.name, call.args, call.from)
      modifies this`calls
      ensures calls == old(calls) + [call] && EstimatedSends(calls)
    {
      calls := calls + [call];
    }

    /** A transaction sent the way the client sends its gas-metered ones:
        the call is estimated from the first account and, when the estimate
        comes back, sent from that account with the margin added. */
    method EstimateThenSend(name: string, args: seq<string>, estimate: Reply<nat>)
      requires Valid() && accounts != []
      modifies this`calls
      ensures Valid()
      ensures calls == old(calls) + [EstimateGas(name, args, accounts[0])]
                + if estimate.Ok? then [Send(name, args, accounts[0], Some(GasWithMargin(estimate.value)))] else []
    {
      Issue(EstimateGas(name, args, accounts[0]));
      if estimate.Ok? {
        Issue(Send(name, args, accounts[0], Some(GasWithMargin(estimate.value))));
      }
    }

    // ----- Activity log and progress steps -----

    method LogTransaction(kind: LogKind, category: string, description: string, txHash: Option<string>)
      requires Valid()
      modifies this`log
      ensures Valid()
      ensures log == Logged(old(log), LogEntry(kind, category, description, txHash))
    {
      var entry := LogEntry(kind, category, description, txHash);
      log := [entry] + log;
      while |log| > MaxLogEntries
        invariant Min(|old(log)| + 1, MaxLogEntries) <= |log| <= |old(log)| + 1
        invariant log == ([entry] + old(log))[..|log|]
      {
        log := log[..|log| - 1];
      }
    }

    method ClearTransactionLog()
      requires Valid()
      modifies this`log
      ensures Valid() && log == []
    {
      log := [];
    }

    /** Sets the status of step n (1 to 4); the text the page shows for it is
        StatusText(status), which is display only. */
    method UpdateProgressStep(step: int, status: StepStatus)
      requires Valid()
      modifies steps
      ensures Valid()
      ensures steps[..] == if 1 <= step <= StepCount then old(steps[..])[step - 1 := status] else old(steps[..])
    {
      if 1 <= step <= steps.Length {
        steps[step - 1] := status;
      }
    }

    method ResetUploadForm()
      requires Valid()
      modifies this`currentFile, this`currentHash, steps
      ensures Valid()
      ensures currentFile.None? && currentHash.None? && steps[..] == ResetSteps
    {
      currentFile, currentHash := None, None;
      for step := 1 to StepCount + 1
        invariant forall k :: 0 <= k < step - 1 ==> steps[k] == Cleared
        modifies steps
      {
        UpdateProgressStep(step, Cleared);
      }
      UpdateProgressStep(1, Active);
      assert steps[..] == ResetSteps;
    }

    // ----- Store workflow -----

    /** The verification of a picked file: its hash when it could be read, then the chain. */
    twostate predicate VerifiedFile(file: File, readError: Option<string>, present: Reply<bool>,
                                    record: Reply<DocRecord>, new v: Query<Option<DocRecord>>)
      reads this
    {
      if readError.Some? then v == Errored(readError.value) && calls == old(calls) && log == old(log)
      else VerifiedOnChain(Encode(digest(file.content)), file.name, present, record, v)
    }

    /** The verification of a hash against the chain, as verifyHashOnBlockchain does it. */
    twostate predicate VerifiedOnChain(hash: string, source: string, present: Reply<bool>,
                                       record: Reply<DocRecord>, new v: Query<Option<DocRecord>>)
      reads this
    {
      if contract.None? then
        v == Refused(ConnectWalletFirst) && calls == old(calls) && log == old(log)
      else
        && calls == old(calls) + VerifyCalls(hash, present)
        && v == VerifyVerdict(present, record)
        && log == Logged(old(log), VerifyLogEntry(source, present, record))
    }

    /** A picked or dropped file: staged for upload, or verified at once. */
    method HandleFile(file: File, purpose: Purpose, readError: Option<string>,
                      present: Reply<bool>, record: Reply<DocRecord>) returns (outcome: FileOutcome)
      requires Valid()
      modifies this`currentFile, this`log, this`calls, steps
      ensures Valid()
      ensures !IsAllowedFile(file) ==> outcome == Unsupported && unchanged(this) && steps[..] == old(steps[..])
      ensures IsAllowedFile(file) && purpose == Upload ==>
                && outcome == Staged && currentFile == Some(file) && currentHash == old(currentHash)
                && steps[..] == old(steps[..])[0 := Completed][1 := Active]
                && log == old(log) && calls == old(calls)
      ensures IsAllowedFile(file) && purpose == Verify ==>
                && outcome.Checked? && currentFile == old(currentFile) && steps[..] == old(steps[..])
                && VerifiedFile(file, readError, present, record, outcome.verdict)
    {
      if !IsAllowedFile(file) {
        return Unsupported;
      }
      if purpose == Upload {
        currentFile := Some(file);
        UpdateProgressStep(1, Completed);
        UpdateProgressStep(2, Active);
        outcome := Staged;
      } else {
        var v := VerifyUploadedFile(file, readError, present, record);
        outcome := Checked(v);
      }
    }

    /** Hashes the staged file; a read failure leaves the staged hash as it was. */
    method GenerateDocumentHash(readError: Option<string>) returns (st: Status)
      requires Valid()
      modifies this`currentHash, steps
      ensures Valid()
      ensures currentFile.None? ==>
                st == Rejected(SelectFileFirst) && currentHash == old(currentHash)
                && steps[..] == old(steps[..])
      ensures currentFile.Some? && readError.Some? ==>
                st == Failed(readError.value) && currentHash == old(currentHash)
                && steps[..] == old(steps[..])
      ensures currentFile.Some? && readError.None? ==>
                && st == Done
                && currentHash == Some(Encode(digest(currentFile.value.content)))
                && steps[..] == old(steps[..])[1 := Completed][2 := Active]
    {
      if currentFile.None? {
        return Rejected(SelectFileFirst);
      }
      if readError.Some? {
        return Failed(readError.value);
      }
      currentHash := Some(Encode(digest(currentFile.value.content)));
      UpdateProgressStep(2, Completed);
      UpdateProgressStep(3, Active);
      st := Done;
    }

    /** Submits the staged hash with addDocHash: estimate, then send with a 20% margin.
        Success clears the staged file and hash (the delayed resetUploadForm);
        failure keeps them so that the store can be retried without rehashing. */
    method StoreHashOnBlockchain(ipfsInput: string, estimate: Reply<nat>, receipt: Reply<string>)
      returns (st: Status)
      requires Valid()
      modifies this`currentFile, this`currentHash, this`log, this`calls, steps
      ensures Valid()
      ensures old(currentHash).None? ==>
                st == Rejected(GenerateHashFirst) && unchanged(this)
                && steps[..] == old(steps[..])
      ensures old(currentHash).Some? && contract.None? ==>
                st == Rejected(ConnectWalletFirst) && unchanged(this)
                && steps[..] == old(steps[..])
      ensures old(currentHash).Some? && contract.Some? ==>
                var args := [HashArg(old(currentHash).value), if ipfsInput == "" then NoIpfsReference else ipfsInput];
                calls == old(calls) + [EstimateGas("addDocHash", args, accounts[0])]
                  + (if estimate.Ok? then [Send("addDocHash", args, accounts[0], Some(GasWithMargin(estimate.value)))] else [])
      ensures old(currentHash).Some? && contract.Some? && estimate.Ok? && receipt.Ok? ==>
                && st == Done
                && currentFile.None? && currentHash.None? && steps[..] == ResetSteps
                && log == Logged(old(log), LogEntry(Success, StorageCategory,
                                                    "Stored: " + old(currentFile).value.name, Some(receipt.value)))
      ensures old(currentHash).Some? && contract.Some? && (estimate.Fail? || receipt.Fail?) ==>
                var m := if estimate.Fail? then estimate.message else receipt.message;
                && st == Failed(m)
                && currentFile == old(currentFile) && currentHash == old(currentHash)
                && steps[..] == old(steps[..])
                && log == Logged(old(log), LogEntry(Error, StorageCategory, "Failed: " + m, None))
    {
      if currentHash.None? {
        return Rejected(GenerateHashFirst);
      }
      if contract.None? {
        return Rejected(ConnectWalletFirst);
      }
      var ipfs := if ipfsInput == "" then NoIpfsReference else ipfsInput;
      var args := [HashArg(currentHash.value), ipfs];
      EstimateThenSend("addDocHash", args, estimate);
      if estimate.Fail? {
        LogTransaction(Error, StorageCategory, "Failed: " + estimate.message, None);
        return Failed(estimate.message);
      }
      if receipt.Fail? {
        LogTransaction(Error, StorageCategory, "Failed: " + receipt.message, None);
        return Failed(receipt.message);
      }
      UpdateProgressStep(3, Completed);
      UpdateProgressStep(4, Completed);
      LogTransaction(Success, StorageCategory, "Stored: " + currentFile.value.name, Some(receipt.value));
      // resetUploadForm runs two seconds later in the client
      ResetUploadForm();
      st := Done;
    }

    // ----- Verification -----

    method VerifyUploadedFile(file: File, readError: Option<string>, present: Reply<bool>,
                              record: Reply<DocRecord>) returns (v: Query<Option<DocRecord>>)
      requires Valid()
      modifies this`log, this`calls
      ensures Valid()
      ensures VerifiedFile(file, readError, present, record, v)
    {
      if readError.Some? {
        return Errored(readError.value);
      }
      v := VerifyHashOnBlockchain(Encode(digest(file.content)), file.name, present, record);
    }

    /** Verifies a typed hash: an input that is blank after trimming, or whose
        length is not 64, is refused before any contract call. */
    method VerifyByHash(input: string, present: Reply<bool>, record: Reply<DocRecord>)
      returns (v: Query<Option<DocRecord>>)
      requires Valid()
      modifies this`log, this`calls
      ensures Valid()
      ensures Trim(input) == "" ==> v == Refused(EnterHashPrompt) && unchanged(this)
      ensures Trim(input) != "" && |Trim(input)| != 64 ==>
                v == Refused(HashLengthError) && unchanged(this)
      ensures |Trim(input)| == 64 ==> VerifiedOnChain(Trim(input), ManualSource, present, record, v)
    {
      var hash := Trim(input);
      if hash == "" {
        return Refused(EnterHashPrompt);
      }
      if |hash| != 64 {
        return Refused(HashLengthError);
      }
      v := VerifyHashOnBlockchain(hash, ManualSource, present, record);
    }

    method VerifyHashOnBlockchain(hash: string, source: string, present: Reply<bool>,
                                  record: Reply<DocRecord>) returns (v: Query<Option<DocRecord>>)
      requires Valid()
      modifies this`log, this`calls
      ensures Valid()
      ensures VerifiedOnChain(hash, source, present, record, v)
    {
      if contract.None? {
        return Refused(ConnectWalletFirst);
      }
      Issue(Read("documentExists", [HashArg(hash)]));
      if present.Fail? {
        LogTransaction(Error, VerificationCategory, "Error: " + present.message, None);
        return Errored(present.message);
      }
      if !present.value {
        LogTransaction(Warning, VerificationCategory, "Not found: " + source, None);
        return Answer(None);
      }
      Issue(Read("findDocHash", [HashArg(hash)]));
      if record.Fail? {
        LogTransaction(Error, VerificationCategory, "Error: " + record.message, None);
        return Errored(record.message);
      }
      LogTransaction(Success, VerificationCategory, "Verified: " + source, None);
      v := Answer(Some(record.value));
    }

    // ----- Descriptor and session -----

    /** Reads the outcome of fetching VeriChain.json: the interface is kept
        as soon as the document parsed, the address only when network 5777
        has a deployment. */
    method LoadContractFromJSON(fetched: Reply<Descriptor>) returns (st: Status)
      requires Valid()
      modifies this`contractAbi, this`contractAddress
      ensures Valid()
      ensures fetched.Fail? ==> st == Failed(fetched.message) && unchanged(this)
      ensures fetched.Ok? ==> contractAbi == Some(fetched.value.abi)
      ensures fetched.Ok? && NetworkId in fetched.value.networks ==>
                st == Done && contractAddress == Some(fetched.value.networks[NetworkId])
      ensures fetched.Ok? && NetworkId !in fetched.value.networks ==>
                && st == Failed(AddressMissing)
                && contractAddress == old(contractAddress)
    {
      if fetched.Fail? {
        return Failed(fetched.message);
      }
      contractAbi := Some(fetched.value.abi);
      if NetworkId in fetched.value.networks {
        contractAddress := Some(fetched.value.networks[NetworkId]);
        st := Done;
      } else {
        st := Failed(AddressMissing);
      }
    }

    /** Start-up: the descriptor is loaded and then a silent reconnect is
        tried; a wallet session is only ever opened once the descriptor gave
        both an interface and an address. */
    method Init(fetched: Reply<Descriptor>, providerPresent: bool, existing: Reply<seq<string>>,
                constructError: Option<string>, owner: Reply<string>, isExporter: Reply<bool>) returns (st: Status)
      requires Valid()
      modifies this`contractAbi, this`contractAddress, this`accounts, this`contract, this`currentUserRole, this`log, this`calls
      ensures Valid()
      ensures st == match fetched
                    case Fail(m) => Failed(m)
                    case Ok(d) => if NetworkId in d.networks then Done else Failed(AddressMissing)
      ensures fetched.Fail? ==> contractAbi == old(contractAbi) && contractAddress == old(contractAddress)
      ensures fetched.Ok? ==> contractAbi == Some(fetched.value.abi)
      ensures fetched.Ok? && NetworkId in fetched.value.networks ==>
                contractAddress == Some(fetched.value.networks[NetworkId])
      ensures fetched.Ok? && NetworkId !in fetched.value.networks ==> contractAddress == old(contractAddress)
      ensures var reconnect := providerPresent && existing.Ok? && existing.value != [] && ContractLoaded();
              && (reconnect ==> accounts == [existing.value[0]])
              && (reconnect && constructError.None? ==>
                    && contract == Some(ContractClient(contractAbi.value, contractAddress.value))
                    && calls == old(calls) + LoadDataCalls(existing.value[0], owner, isExporter)
                    && currentUserRole == LoadedRole(old(currentUserRole), existing.value[0], owner, isExporter)
                    && log == LoadedLog(old(log), owner, isExporter))
              && (reconnect && constructError.Some? ==>
                    && contract == old(contract) && currentUserRole == old(currentUserRole)
                    && log == old(log) && calls == old(calls))
              && (!reconnect ==> && accounts == old(accounts) && contract == old(contract)
                                 && currentUserRole == old(currentUserRole) && log == old(log) && calls == old(calls))
    {
      st := LoadContractFromJSON(fetched);
      CheckConnection(providerPresent, existing, constructError, owner, isExporter);
    }

    /** The effect of setConnected(account): the account is recorded, the
        contract is bound, and the role is loaded from the contract. */
    twostate predicate Connected(account: string, constructError: Option<string>,
                                 owner: Reply<string>, isExporter: Reply<bool>, st: Status)
      reads this
    {
      && accounts == [account]
      && if constructError.Some? then
           && st == Failed(constructError.value) && contract == old(contract)
           && currentUserRole == old(currentUserRole) && log == old(log) && calls == old(calls)
         else
           && old(contractAbi).Some? && old(contractAddress).Some?
           && contract == Some(ContractClient(old(contractAbi).value, old(contractAddress).value))
           && calls == old(calls) + LoadDataCalls(account, owner, isExporter)
           && currentUserRole == LoadedRole(old(currentUserRole), account, owner, isExporter)
           && log == LoadedLog(old(log), owner, isExporter)
           && st == LoadStatus(owner, isExporter)
    }

    method SetConnected(account: string, constructError: Option<string>,
                        owner: Reply<string>, isExporter: Reply<bool>) returns (st: Status)
      requires Valid() && ContractLoaded()
      modifies this`accounts, this`contract, this`currentUserRole, this`log, this`calls
      ensures Valid()
      ensures Connected(account, constructError, owner, isExporter, st)
    {
      accounts := [account];
      if constructError.Some? {
        return Failed(constructError.value);
      }
      contract := Some(ContractClient(contractAbi.value, contractAddress.value));
      st := LoadContractData(owner, isExporter);
    }

    /** Connects through the wallet once the descriptor is loaded. */
    method ConnectWallet(providerPresent: bool, authorized: Reply<string>, constructError: Option<string>,
                         owner: Reply<string>, isExporter: Reply<bool>) returns (st: Status)
      requires Valid()
      modifies this`accounts, this`contract, this`currentUserRole, this`log, this`calls
      ensures Valid()
      ensures
        if !providerPresent then
          st == Rejected(NoProvider) && unchanged(this)
        else if !old(ContractLoaded()) then
          st == Rejected(NotLoaded) && unchanged(this)
        else if authorized.Fail? then
          st == Failed(authorized.message) && unchanged(this)
        else
          st == Done && exists inner :: Connected(authorized.value, constructError, owner, isExporter, inner)
    {
      if !providerPresent {
        return Rejected(NoProvider);
      }
      if !ContractLoaded() {
        return Rejected(NotLoaded);
      }
      if authorized.Fail? {
        return Failed(authorized.message);
      }
      var inner := SetConnected(authorized.value, constructError, owner, isExporter);
      assert Connected(authorized.value, constructError, owner, isExporter, inner);
      // the client reports the connection even when setConnected reported an error
      st := Done;
    }

    /** At start-up: reconnects without a prompt when the wallet already
        authorised an account and the descriptor is loaded. */
    method CheckConnection(providerPresent: bool, existing: Reply<seq<string>>, constructError: Option<string>,
                           owner: Reply<string>, isExporter: Reply<bool>)
      requires Valid()
      modifies this`accounts, this`contract, this`currentUserRole, this`log, this`calls
      ensures Valid()
      ensures !(providerPresent && existing.Ok? && existing.value != [] && ContractLoaded()) ==> unchanged(this)
      ensures providerPresent && existing.Ok? && existing.value != [] && ContractLoaded() ==>
                exists st :: Connected(existing.value[0], constructError, owner, isExporter, st)
    {
      if providerPresent && existing.Ok? && existing.value != [] && ContractLoaded() {
        var st := SetConnected(existing.value[0], constructError, owner, isExporter);
        assert Connected(existing.value[0], constructError, owner, isExporter, st);
      }
    }

    /** Derives the role of the connected account from owner() and
        isExporter(account), then refreshes the statistics. */
    method LoadContractData(owner: Reply<string>, isExporter: Reply<bool>) returns (st: Status)
      requires Valid()
      modifies this`currentUserRole, this`log, this`calls
      ensures Valid()
      ensures contract.None? ==> st == Failed(NullContract) && unchanged(this)
      ensures contract.Some? ==>
                && calls == old(calls) + LoadDataCalls(accounts[0], owner, isExporter)
                && currentUserRole == LoadedRole(old(currentUserRole), accounts[0], owner, isExporter)
                && log == LoadedLog(old(log), owner, isExporter)
                && st == LoadStatus(owner, isExporter)
    {
      if contract.None? {
        return Failed(NullContract);
      }
      Issue(Read("owner", []));
      if owner.Fail? {
        return Failed(owner.message);
      }
      Issue(Read("isExporter", [accounts[0]]));
      if isExporter.Fail? {
        return Failed(isExporter.message);
      }
      currentUserRole := DeriveRole(owner.value, accounts[0], isExporter.value);
      LoadContractStats();
      LogTransaction(Info, SystemCategory, ConnectedNote, None);
      st := Done;
    }

    /** Refreshes the statistics shown on the page; its errors are only logged to the console. */
    method LoadContractStats()
      requires Valid()
      modifies this`calls
      ensures Valid()
      ensures calls == old(calls) + if contract.Some? then [Read("getStats", [])] else []
    {
      if contract.Some? {
        Issue(Read("getStats", []));
      }
    }

    // ----- Administration -----

    /** Owner only: add_Exporter(address, info), estimated first and sent with a 20% margin. */
    method AddExporter(addressInput: string, infoInput: string, estimate: Reply<nat>, receipt: Reply<string>)
      returns (st: Status)
      requires Valid()
      modifies this`log, this`calls
      ensures Valid()
      ensures
        var address, info := Trim(addressInput), Trim(infoInput);
        if address == "" || info == "" then
          st == Rejected(FillAllFields) && unchanged(this)
        else if currentUserRole != Owner then
          st == Rejected(OwnerOnlyAdd) && unchanged(this)
        else
          var args := [address, info];
          var estimated := old(calls) + [EstimateGas("add_Exporter", args, accounts[0])];
          if estimate.Fail? then
            && calls == estimated && st == Failed(estimate.message)
            && log == Logged(old(log), LogEntry(Error, AddExporterCategory, "Failed: " + estimate.message, None))
          else
            var sent := estimated + [Send("add_Exporter", args, accounts[0], Some(GasWithMargin(estimate.value)))];
            if receipt.Fail? then
              && calls == sent && st == Failed(receipt.message)
              && log == Logged(old(log), LogEntry(Error, AddExporterCategory, "Failed: " + receipt.message, None))
            else
              && calls == sent + [Read("getStats", [])] && st == Done
              && log == Logged(old(log), LogEntry(Success, AddExporterCategory, "Added: " + info + " (" + FormatAddress(address) + ")", Some(receipt.value)))
    {
      var address, info := Trim(addressInput), Trim(infoInput);
      if address == "" || info == "" {
        return Rejected(FillAllFields);
      }
      if currentUserRole != Owner {
        return Rejected(OwnerOnlyAdd);
      }
      EstimateThenSend("add_Exporter", [address, info], estimate);
      if estimate.Fail? {
        LogTransaction(Error, AddExporterCategory, "Failed: " + estimate.message, None);
        return Failed(estimate.message);
      }
      if receipt.Fail? {
        LogTransaction(Error, AddExporterCategory, "Failed: " + receipt.message, None);
        return Failed(receipt.message);
      }
      LogTransaction(Success, AddExporterCategory, "Added: " + info + " (" + FormatAddress(address) + ")", Some(receipt.value));
      LoadContractStats();
      st := Done;
    }

    /** Owner only: alter_Exporter(address, info), sent without an estimate. */
    method AlterExporter(addressInput: string, infoInput: string, receipt: Reply<string>) returns (st: Status)
      requires Valid()
      modifies this`log, this`calls
      ensures Valid()
      ensures
        var address, info := Trim(addressInput), Trim(infoInput);
        if address == "" || info == "" then
          st == Rejected(FillAllFields) && unchanged(this)
        else if currentUserRole != Owner then
          st == Rejected(OwnerOnlyModify) && unchanged(this)
        else
          && calls == old(calls) + [Send("alter_Exporter", [address, info], accounts[0], None)]
          && st == (if receipt.Ok? then Done else Failed(receipt.message))
          && log == if receipt.Ok? then Logged(old(log), LogEntry(Success, ModifyExporterCategory, "Modified: " + FormatAddress(address), Some(receipt.value)))
                    else old(log)
    {
      var address, info := Trim(addressInput), Trim(infoInput);
      if address == "" || info == "" {
        return Rejected(FillAllFields);
      }
      if currentUserRole != Owner {
        return Rejected(OwnerOnlyModify);
      }
      Issue(Send("alter_Exporter", [address, info], accounts[0], None));
      if receipt.Fail? {
        return Failed(receipt.message);
      }
      LogTransaction(Success, ModifyExporterCategory, "Modified: " + FormatAddress(address), Some(receipt.value));
      st := Done;
    }

    /** Owner only, after confirmation: delete_Exporter(address). */
    method DeleteExporter(addressInput: string, confirmed: bool, receipt: Reply<string>) returns (st: Status)
      requires Valid()
      modifies this`log, this`calls
      ensures Valid()
      ensures
        var address := Trim(addressInput);
        if address == "" then
          st == Rejected(EnterExporterAddress) && unchanged(this)
        else if currentUserRole != Owner then
          st == Rejected(OwnerOnlyDelete) && unchanged(this)
        else if !confirmed then
          st == Cancelled && unchanged(this)
        else
          && calls == old(calls) + [Send("delete_Exporter", [address], accounts[0], None)]
               + (if receipt.Ok? then [Read("getStats", [])] else [])
          && st == (if receipt.Ok? then Done else Failed(receipt.message))
          && log == if receipt.Ok? then Logged(old(log), LogEntry(Success, RemoveExporterCategory, "Removed: " + FormatAddress(address), Some(receipt.value)))
                    else old(log)
    {
      var address := Trim(addressInput);
      if address == "" {
        return Rejected(EnterExporterAddress);
      }
      if currentUserRole != Owner {
        return Rejected(OwnerOnlyDelete);
      }
      if !confirmed {
        return Cancelled;
      }
      Issue(Send("delete_Exporter", [address], accounts[0], None));
      if receipt.Fail? {
        return Failed(receipt.message);
      }
      LogTransaction(Success, RemoveExporterCategory, "Removed: " + FormatAddress(address), Some(receipt.value));
      LoadContractStats();
      st := Done;
    }

    /** Owner only, after confirmation: changeOwner(newOwner), then the role
        is derived again from what the contract now reports. */
    method ChangeOwner(newOwnerInput: string, confirmed: bool, receipt: Reply<string>,
                       owner: Reply<string>, isExporter: Reply<bool>) returns (st: Status)
      requires Valid()
      modifies this`currentUserRole, this`log, this`calls
      ensures Valid()
      ensures
        var newOwner := Trim(newOwnerInput);
        if newOwner == "" then
          st == Rejected(EnterNewOwner) && unchanged(this)
        else if old(currentUserRole) != Owner then
          st == Rejected(OwnerOnlyTransfer) && unchanged(this)
        else if !confirmed then
          st == Cancelled && unchanged(this)
        else if receipt.Fail? then
          && calls == old(calls) + [Send("changeOwner", [newOwner], accounts[0], None)]
          && st == Failed(receipt.message) && log == old(log) && currentUserRole == Owner
        else
          && calls == old(calls) + [Send("changeOwner", [newOwner], accounts[0], None)]
               + LoadDataCalls(accounts[0], owner, isExporter)
          && st == Done
          && currentUserRole == LoadedRole(Owner, accounts[0], owner, isExporter)
          && log == LoadedLog(Logged(old(log), LogEntry(Success, TransferCategory, "New owner: " + FormatAddress(newOwner), Some(receipt.value))),
                              owner, isExporter)
    {
      var newOwner := Trim(newOwnerInput);
      if newOwner == "" {
        return Rejected(EnterNewOwner);
      }
      if currentUserRole != Owner {
        return Rejected(OwnerOnlyTransfer);
      }
      if !confirmed {
        return Cancelled;
      }
      Issue(Send("changeOwner", [newOwner], accounts[0], None));
      if receipt.Fail? {
        return Failed(receipt.message);
      }
      var entry := LogEntry(Success, TransferCategory, "New owner: " + FormatAddress(newOwner), Some(receipt.value));
      LogTransaction(entry.kind, entry.category, entry.description, entry.txHash);
      ghost var sent, logged := calls, log;
      assert sent == old(calls) + [Send("changeOwner", [newOwner], accounts[0], None)];
      assert logged == Logged(old(log), entry);
      var _ := LoadContractData(owner, isExporter);
      assert calls == sent + LoadDataCalls(accounts[0], owner, isExporter);
      assert log == LoadedLog(logged, owner, isExporter);
      st := Done;
    }

    /** addDocHash for a typed hash: only blankness and the 64-character
        length are checked; there is no role check and no estimate. */
    method AddManualDocHash(hashInput: string, ipfsInput: string, receipt: Reply<string>) returns (st: Status)
      requires Valid()
      modifies this`log, this`calls
      ensures Valid()
      ensures
        var hash, ipfs := Trim(hashInput), if Trim(ipfsInput) == "" then ManualIpfsReference else Trim(ipfsInput);
        if hash == "" then
          st == Rejected(EnterDocHash) && unchanged(this)
        else if |hash| != 64 then
          st == Rejected(HashLengthError) && unchanged(this)
        else if contract.None? then
          st == Failed(NullContract) && unchanged(this)
        else
          && calls == old(calls) + [Send("addDocHash", [HashArg(hash), ipfs], accounts[0], None)]
               + (if receipt.Ok? then [Read("getStats", [])] else [])
          && st == (if receipt.Ok? then Done else Failed(receipt.message))
          && log == if receipt.Ok? then Logged(old(log), LogEntry(Success, AddHashCategory, "Hash: " + Substring(hash, 0, 16) + "...", Some(receipt.value)))
                    else old(log)
    {
      var hash := Trim(hashInput);
      var ipfs := if Trim(ipfsInput) == "" then ManualIpfsReference else Trim(ipfsInput);
      if hash == "" {
        return Rejected(EnterDocHash);
      }
      if |hash| != 64 {
        return Rejected(HashLengthError);
      }
      if contract.None? {
        return Failed(NullContract);
      }
      Issue(Send("addDocHash", [HashArg(hash), ipfs], accounts[0], None));
      if receipt.Fail? {
        return Failed(receipt.message);
      }
      LogTransaction(Success, AddHashCategory, "Hash: " + Substring(hash, 0, 16) + "...", Some(receipt.value));
      LoadContractStats();
      st := Done;
    }

    /** deleteHash after confirmation: only blankness is checked. */
    method DeleteDocumentHash(hashInput: string, confirmed: bool, receipt: Reply<string>) returns (st: Status)
      requires Valid()
      modifies this`log, this`calls
      ensures Valid()
      ensures
        var hash := Trim(hashInput);
        if hash == "" then
          st == Rejected(EnterDocHash) && unchanged(this)
        else if !confirmed then
          st == Cancelled && unchanged(this)
        else if contract.None? then
          st == Failed(NullContract) && unchanged(this)
        else
          && calls == old(calls) + [Send("deleteHash", [HashArg(hash)], accounts[0], None)]
               + (if receipt.Ok? then [Read("getStats", [])] else [])
          && st == (if receipt.Ok? then Done else Failed(receipt.message))
          && log == if receipt.Ok? then Logged(old(log), LogEntry(Success, DeleteHashCategory, "Hash: " + Substring(hash, 0, 16) + "...", Some(receipt.value)))
                    else old(log)
    {
      var hash := Trim(hashInput);
      if hash == "" {
        return Rejected(EnterDocHash);
      }
      if !confirmed {
        return Cancelled;
      }
      if contract.None? {
        return Failed(NullContract);
      }
      Issue(Send("deleteHash", [HashArg(hash)], accounts[0], None));
      if receipt.Fail? {
        return Failed(receipt.message);
      }
      LogTransaction(Success, DeleteHashCategory, "Hash: " + Substring(hash, 0, 16) + "...", Some(receipt.value));
      LoadContractStats();
      st := Done;
    }

    // ----- Queries -----

    /** findDocHash for a typed hash; a record at block number 0 reads as not found. */
    method FindDocumentHash(hashInput: string, record: Reply<DocRecord>) returns (q: Query<Option<DocRecord>>)
      requires Valid()
      modifies this`calls
      ensures Valid()
      ensures Trim(hashInput) == "" ==> q == Refused(EnterDocHash) && calls == old(calls)
      ensures Trim(hashInput) != "" && contract.None? ==> q == Errored(NullContract) && calls == old(calls)
      ensures Trim(hashInput) != "" && contract.Some? ==>
                && calls == old(calls) + [Read("findDocHash", [HashArg(Trim(hashInput))])]
                && (record.Fail? ==> q == Errored(record.message))
                && (record.Ok? ==> q.Answer? && (q.value.None? <==> record.value.blockNumber == 0))
                && (record.Ok? && record.value.blockNumber != 0 ==> q == Answer(Some(record.value)))
    {
      var hash := Trim(hashInput);
      if hash == "" {
        return Refused(EnterDocHash);
      }
      if contract.None? {
        return Errored(NullContract);
      }
      Issue(Read("findDocHash", [HashArg(hash)]));
      if record.Fail? {
        return Errored(record.message);
      }
      q := Answer(if record.value.blockNumber == 0 then None else Some(record.value));
    }

    /** isExporter(address) and then getExporterInfo(address): the info when authorised. */
    method CheckExporterStatus(addressInput: string, isExporter: Reply<bool>, info: Reply<string>)
      returns (q: Query<Option<string>>)
      requires Valid()
      modifies this`calls
      ensures Valid()
      ensures
        var address := Trim(addressInput);
        if address == "" then
          q == Refused(EnterExporterAddress) && calls == old(calls)
        else if contract.None? then
          q == Errored(NullContract) && calls == old(calls)
        else if isExporter.Fail? then
          q == Errored(isExporter.message) && calls == old(calls) + [Read("isExporter", [address])]
        else
          && calls == old(calls) + [Read("isExporter", [address]), Read("getExporterInfo", [address])]
          && q == match info
                  case Fail(m) => Errored(m)
                  case Ok(text) => Answer(if isExporter.value then Some(text) else None)
    {
      var address := Trim(addressInput);
      if address == "" {
        return Refused(EnterExporterAddress);
      }
      if contract.None? {
        return Errored(NullContract);
      }
      Issue(Read("isExporter", [address]));
      if isExporter.Fail? {
        return Errored(isExporter.message);
      }
      Issue(Read("getExporterInfo", [address]));
      if info.Fail? {
        return Errored(info.message);
      }
      q := Answer(if isExporter.value then Some(info.value) else None);
    }

    method CheckDocumentExists(hashInput: string, present: Reply<bool>) returns (q: Query<bool>)
      requires Valid()
      modifies this`calls
      ensures Valid()
      ensures Trim(hashInput) == "" ==> q == Refused(EnterDocHash) && calls == old(calls)
      ensures Trim(hashInput) != "" ==>
                q == (if contract.None? then Errored(NullContract) else AsQuery(present))
                && calls == old(calls) + (if contract.None? then [] else [Read("documentExists", [HashArg(Trim(hashInput))])])
    {
      var hash := Trim(hashInput);
      if hash == "" {
        return Refused(EnterDocHash);
      }
      q := ReadOnce("documentExists", [HashArg(hash)], present);
    }

    /** One read-only call and its answer, as every quick-statistics button makes it. */
    method ReadOnce<T>(name: string, args: seq<string>, reply: Reply<T>) returns (q: Query<T>)
      requires Valid()
      modifies this`calls
      ensures Valid()
      ensures q == (if contract.None? then Errored(NullContract) else AsQuery(reply))
      ensures calls == old(calls) + (if contract.None? then [] else [Read(name, args)])
    {
      if contract.None? {
        return Errored(NullContract);
      }
      Issue(Read(name, args));
      q := AsQuery(reply);
    }

    method GetContractStats(stats: Reply<(nat, nat)>) returns (q: Query<(nat, nat)>)
      requires Valid()
      modifies this`calls
      ensures Valid()
      ensures q == (if contract.None? then Errored(NullContract) else AsQuery(stats))
      ensures calls == old(calls) + (if contract.None? then [] else [Read("getStats", [])])
    {
      q := ReadOnce("getStats", [], stats);
    }

    method GetContractOwner(owner: Reply<string>) returns (q: Query<string>)
      requires Valid()
      modifies this`calls
      ensures Valid()
      ensures q == (if contract.None? then Errored(NullContract) else AsQuery(owner))
      ensures calls == old(calls) + (if contract.None? then [] else [Read("owner", [])])
    {
      q := ReadOnce("owner", [], owner);
    }

    method CountExporters(count: Reply<nat>) returns (q: Query<nat>)
      requires Valid()
      modifies this`calls
      ensures Valid()
      ensures q == (if contract.None? then Errored(NullContract) else AsQuery(count))
      ensures calls == old(calls) + (if contract.None? then [] else [Read("count_Exporters", [])])
    {
      q := ReadOnce("count_Exporters", [], count);
    }

    method CountHashes(count: Reply<nat>) returns (q: Query<nat>)
      requires Valid()
      modifies this`calls
      ensures Valid()
      ensures q == (if contract.None? then Errored(NullContract) else AsQuery(count))
      ensures calls == old(calls) + (if contract.None? then [] else [Read("count_hashes", [])])
    {
      q := ReadOnce("count_hashes", [], count);
    }
  }

  /** Picking a second file after hashing a first one keeps the first file's
      hash staged beside the second file: handleFile never clears the hash,
      so a store that follows submits the first file's hash under the second
      file's name. */
  method ReselectKeepsHash(digest: Digester, first: File, second: File)
    returns (file: Option<File>, hash: Option<string>)
    requires IsAllowedFile(first) && IsAllowedFile(second)
    ensures file == Some(second)
    ensures hash == Some(Encode(digest(first.content)))
  {
    var v := new VeriChainDocumentVerifier(digest);
    var _ := v.HandleFile(first, Upload, None, Ok(false), Ok(DocRecord(0, 0, "", "")));
    var _ := v.GenerateDocumentHash(None);
    var _ := v.HandleFile(second, Upload, None, Ok(false), Ok(DocRecord(0, 0, "", "")));
    file, hash := v.currentFile, v.currentHash;
  }
}
