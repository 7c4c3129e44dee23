# VeriChain client bookkeeping, modelled in Dafny

VeriChain stores SHA-256 hashes of documents in an Ethereum smart contract
and lets anyone check a document against it. This project models the
browser client's own logic, which lives in class `VeriChainDocumentVerifier`
(`client/app.js`):

- the upload workflow: stage a file, hash it, store the hash with
  `addDocHash`;
- verification of a file or a typed hash;
- the owner's administrative operations;
- the read-only queries;
- the role the client derives for the connected account;
- the capped, newest-first activity log;
- the four upload progress steps.

The contract, the MetaMask wallet and the browser file reader are not
modelled. Whatever they answer for one operation is a `Reply<T>` parameter
(`Ok(value)` or `Fail(message)`). Every contract call the client issues is
appended to a ghost trace `calls`: a read (`call()`), a gas estimate
(`estimateGas`) or a transaction (`send`). SHA-256 (`crypto.subtle.digest`)
is a `Digester`, a function every output of which is 32 bytes, fixed when
the verifier is created.

Modules:

- `Common`: `Option`, `Reply` and `Min`.
- `Hex`: the lower-case hexadecimal text of a digest, built as the client
  builds it (`toString(16)`, `padStart(2, '0')`, `join('')`), and a decoder
  that reads it back.
- `JsString`: the JavaScript string operations the client relies on.
  These are `trim` (ECMAScript white space), `toLowerCase`, `endsWith`,
  `slice` and `substring`.
- `Helpers`: the pure rules.
  - the file allow-list;
  - the role derivation;
  - `formatAddress`;
  - the gas margin;
  - the step status text;
  - the 50-entry log.
- `Verifier`: the class `VeriChainDocumentVerifier`.
  - Its fields are the ones the client keeps: `contractAbi`,
    `contractAddress`, `contract`, `accounts`, `currentUserRole`,
    `currentFile` and `currentHash`.
  - The activity log is a sequence `log`, newest entry first.
  - The progress steps are an array `steps`.
  - Each operation is a method. Its postcondition gives its outcome
    (`Status` or `Query`), the new state and the exact calls appended
    to the trace.

Re-selecting a file keeps a stale hash. `handleFile` never clears
`currentHash`, so a file picked for upload after another file was hashed
sits beside the earlier file's hash. A store that follows submits the
earlier file's hash, logged under the new file's name. A design that pairs
each staged file with its own hash would clear the hash when a new file is
staged. The model keeps the client's behaviour, and `ReselectKeepsHash`
proves it for any two accepted files and any digest.

The invariant `Valid()` is kept by every method:

- the log never holds more than 50 entries;
- a staged hash is always 64 lower-case hexadecimal characters and sits
  beside a staged file;
- a bound contract implies a connected account;
- a derived role implies a bound contract;
- every transaction sent with a gas limit comes right after the estimate
  of the same call from the same account.

## Model

| member | source | states |
|---|---|---|
| Hex.Digit | client/app.js:434 | A digit value below 16 becomes one lower-case hexadecimal character. |
| Hex.DigitValue | client/app.js:434 | A character has a digit value exactly when it is a lower-case hexadecimal digit, and writing that value gives the character back. |
| Hex.ByteText | client/app.js:434 | `b.toString(16).padStart(2, '0')` is always exactly two characters: the high digit and then the low digit, so a byte below 16 gains a leading zero. |
| Hex.Encode | client/app.js:432-434 | The joined text is twice as long as the bytes and lower-case hexadecimal only. Characters 2i and 2i+1 are the two digits of byte i, in byte order. |
| Hex.DecodeEncode | client/app.js:432-434 | Reading the text of any byte string back gives the same bytes. |
| Hex.EncodeDecode | client/app.js:432-434 | Any text that reads back as bytes is exactly the encoding of those bytes. |
| Hex.DecodeDefined | client/app.js:432-434 | Text reads back as bytes exactly when it has even length and only lower-case hexadecimal digits. |
| Hex.EncodeInjective | client/app.js:432-434 | Two different byte strings never share a text, so two different digests never show the same hash. |
| JsString.TrimStartSpec | client/app.js:560 | The start-trimmed text is a suffix whose first character is not white space, and everything dropped is white space. |
| JsString.TrimEndSpec | client/app.js:560 | The end-trimmed text is a prefix whose last character is not white space, and everything dropped is white space. |
| JsString.TrimSpec | client/app.js:560 | `trim()` keeps one contiguous stretch of the input. Neither end of it is white space, and everything dropped on either side is. |
| JsString.TrimEmpty | client/app.js:560-563 | A field counts as empty after trimming exactly when it holds only white space. |
| JsString.SliceSpec | client/app.js:1113 | `slice(a, b)` with indices inside the string is exactly the characters from a up to b. `slice(-k)` keeps the last k characters, or the whole string when it is shorter. A slice whose end is not after its start is empty. |
| JsString.SubstringSpec | client/app.js:842 | `substring(0, n)` is the first n characters, or the whole string when it is shorter, so a logged hash shows its first 16 characters. Swapping the two ends gives the same text. |
| Helpers.AllowedFileIff | client/app.js:396-397 | A file is accepted exactly when its media type is one of the four allow-listed types, or its name ends in `.pdf` in any letter case. |
| Helpers.DeriveRole | client/app.js:339-354 | The role is Owner exactly when the account equals the owner up to letter case; ownership wins over exporter membership. It is Exporter exactly when the account is not the owner but is an exporter, and User otherwise. |
| Helpers.FormatAddressForm | client/app.js:1111-1114 | An empty address shows as nothing. Any other shows as its first six characters, "..." and its last four. An address of ten or more characters always shows as 13. |
| Helpers.GasWithMargin | client/app.js:496 | The gas limit is never below the estimate. It is the largest whole number not above six fifths of the estimate. |
| Helpers.StatusTextDistinct | client/app.js:1073-1080 | Completed, In Progress and Pending are three different texts, so a step's text tells its state. |
| Helpers.Logged | client/app.js:1139-1144 | After one entry the log holds the new entry first and then the older entries in order. Its length is one more, up to 50. |
| Helpers.LoggedAllNewestFirst | client/app.js:1116-1145 | After any run of entries, the log is the newest 50 of all entries ever logged, newest first. |
| Verifier.FindOnlyWhenExists | client/app.js:581-585 | A verification asks `documentExists` first. It asks `findDocHash` exactly when `documentExists` answered yes. |
| Verifier.VeriChainDocumentVerifier.constructor | client/app.js:3-13 | No contract, no accounts, role unknown, nothing staged, empty log and call trace. The start-up the client's constructor launches (`this.init()`) is the separate method `Init`. |
| Verifier.VeriChainDocumentVerifier.EstimateThenSend | client/app.js:490-497 | A metered transaction appends the estimate from the first account. When the estimate returns, it then appends the send from that account with the margin as gas. |
| Verifier.VeriChainDocumentVerifier.LogTransaction | client/app.js:1116-1145 | The while loop that drops the oldest entries leaves exactly the capped log, with the new entry first. |
| Verifier.VeriChainDocumentVerifier.ClearTransactionLog | client/app.js:1147-1155 | The log becomes empty. |
| Verifier.VeriChainDocumentVerifier.UpdateProgressStep | client/app.js:1068-1083 | Step n (1 to 4) takes the new status and the others keep theirs. Any other step number changes nothing. |
| Verifier.VeriChainDocumentVerifier.ResetUploadForm | client/app.js:1085-1101 | The staged file and hash are cleared. After the loop over steps 1-4, step 1 is in progress and steps 2-4 are pending. |
| Verifier.VeriChainDocumentVerifier.HandleFile | client/app.js:392-410 | A rejected file changes nothing. An accepted upload stages the file and leaves any staged hash as it was; step 1 becomes completed and step 2 active. An accepted file for verification is hashed and checked, and the staged file is untouched. |
| Verifier.VeriChainDocumentVerifier.GenerateDocumentHash | client/app.js:422-451 | With no staged file, or when the read fails, the hash is unchanged. Otherwise the hash becomes the hex text of the file's digest, and step 2 becomes completed and step 3 active. |
| Verifier.VeriChainDocumentVerifier.StoreHashOnBlockchain | client/app.js:473-527 | With no hash or no contract, nothing changes and no call is made. Otherwise the estimate of `addDocHash("0x" + hash, ipfs)` precedes its send. Success logs "Stored" and resets the upload form. A failure logs the error and keeps the staged file and hash, so a retry needs no rehash. |
| Verifier.VeriChainDocumentVerifier.VerifyUploadedFile | client/app.js:542-557 | A read failure is an error with no call. Otherwise the file's hex digest is verified on chain under the file's name. |
| Verifier.VeriChainDocumentVerifier.VerifyByHash | client/app.js:559-573 | An input that is blank after trimming, or not 64 characters long, is refused with no call. Otherwise the trimmed text is verified with source "Manual hash input". |
| Verifier.VeriChainDocumentVerifier.VerifyHashOnBlockchain | client/app.js:575-627 | With no contract the verification is refused with no call. Otherwise the verdict is the record when the hash exists and "not found" when it does not. The log gains "Verified", "Not found" or "Error". |
| Verifier.VeriChainDocumentVerifier.LoadContractFromJSON | client/app.js:25-63 | A descriptor that was fetched always sets the interface. The address is set exactly when network 5777 has an entry; otherwise the load fails with the missing-address message. |
| Verifier.VeriChainDocumentVerifier.Init | client/app.js:17-23 | The descriptor is loaded first. A fetched descriptor sets the interface, and sets the address when network 5777 has an entry; a failed fetch keeps both. A session opens only when the wallet already has an account and the descriptor gave an interface and an address; otherwise no session state or call changes. On a reconnect the first account is recorded. If the contract can be built, it is bound to the loaded interface and address, `owner`, `isExporter` and `getStats` are read, and the role and the "Connected" log entry follow from the answers. If it cannot, the contract, role, log and calls stay as they were. |
| Verifier.VeriChainDocumentVerifier.SetConnected | client/app.js:304-329 | The account is recorded. If building the contract fails, nothing else changes. Otherwise the contract is bound and the role is loaded. |
| Verifier.VeriChainDocumentVerifier.ConnectWallet | client/app.js:279-302 | With no wallet, or with no descriptor loaded, nothing changes. A refused authorisation changes nothing. Otherwise the authorised account is connected. |
| Verifier.VeriChainDocumentVerifier.CheckConnection | client/app.js:266-277 | The first already-authorised account is connected only when the descriptor is loaded; otherwise nothing changes. |
| Verifier.VeriChainDocumentVerifier.LoadContractData | client/app.js:331-365 | `owner()` is asked first, then `isExporter(account)`, then the statistics. The role is derived only when both answers came back; on an error the role and the log are kept. |
| Verifier.VeriChainDocumentVerifier.LoadContractStats | client/app.js:367-375 | Exactly one `getStats` read is made, and only when a contract is bound. |
| Verifier.VeriChainDocumentVerifier.AddExporter | client/app.js:654-697 | A blank field or a non-owner role is refused with no call. Otherwise the estimate precedes the send, a success is logged with the shortened address and followed by a statistics refresh, and a failure is logged. |
| Verifier.VeriChainDocumentVerifier.AlterExporter | client/app.js:700-734 | A blank field or a non-owner role is refused with no call. Otherwise one send is made without an estimate, and only a success is logged. |
| Verifier.VeriChainDocumentVerifier.DeleteExporter | client/app.js:736-775 | A blank address, a non-owner role or a declined confirmation makes no call. Otherwise one send is made; a success is logged and followed by a statistics refresh. |
| Verifier.VeriChainDocumentVerifier.ChangeOwner | client/app.js:777-816 | A blank address, a non-owner role or a declined confirmation makes no call. A success is logged and the role is derived again from the contract's new answers. |
| Verifier.VeriChainDocumentVerifier.AddManualDocHash | client/app.js:818-856 | Only a blank hash or a length other than 64 is refused, and there is no role check. The storage reference defaults to "Manual hash entry". A success logs the first 16 characters. |
| Verifier.VeriChainDocumentVerifier.DeleteDocumentHash | client/app.js:858-893 | Only a blank hash or a declined confirmation stops it; the length is not checked. A success is logged and followed by a statistics refresh. |
| Verifier.VeriChainDocumentVerifier.FindDocumentHash | client/app.js:896-940 | A blank input is refused with no call. A record at block number 0 reads as not found; any other record is returned. |
| Verifier.VeriChainDocumentVerifier.CheckExporterStatus | client/app.js:942-979 | Both `isExporter` and `getExporterInfo` are read. The info is returned exactly when the address is an exporter. |
| Verifier.VeriChainDocumentVerifier.CheckDocumentExists | client/app.js:981-1007 | A blank input is refused with no call. Otherwise one `documentExists` read answers the query. |
| Verifier.VeriChainDocumentVerifier.GetContractStats | client/app.js:1010-1023 | One `getStats` read answers the query. With no contract it is the null-contract error and no call. |
| Verifier.VeriChainDocumentVerifier.GetContractOwner | client/app.js:1025-1037 | One `owner` read answers the query. With no contract it is the null-contract error and no call. |
| Verifier.VeriChainDocumentVerifier.CountExporters | client/app.js:1039-1051 | One `count_Exporters` read answers the query. With no contract it is the null-contract error and no call. |
| Verifier.VeriChainDocumentVerifier.CountHashes | client/app.js:1053-1065 | One `count_hashes` read answers the query. With no contract it is the null-contract error and no call. |
| Verifier.ReselectKeepsHash | client/app.js:392-406 | Hash one file, then pick another for upload. The second file is staged while the first file's hash stays staged beside it. |

## Left out

- DOM and Bootstrap rendering are not modelled. This covers modals, notifications, `innerHTML` templates, loading overlays, form clearing, the file-info panel, the verification-method toggle, drag-and-drop and the event wiring (`attachEventListeners`, `handleFileSelect`, `handleDrop`). Only their effect on the log, the steps and the staged state is kept.
- `copyHashToClipboard` and `exportTransactionLog` are not modelled: clipboard and file download are browser I/O.
- `formatFileSize` is not modelled: it works on floating point (`Math.log`, `toFixed`).
- Helpers.GasWithMargin: `Math.floor(gasEstimate * 1.2)` is read as exact arithmetic, floor(6e/5). IEEE rounding of the product is not modelled.
- The fetch and JSON parsing of VeriChain.json, and `updateContractInfo`/`updateLoadingStatus`, are left out. Only the parsed interface and the per-network addresses reach the model.
- Web3 and MetaMask internals are answers passed in. This covers `eth_accounts`, `eth_requestAccounts`, `new Web3` and contract construction. Web3's BigInt and tuple decoding are also left out.
- The `accountsChanged` and `chainChanged` page reloads (client/app.js:1236-1245) are left out: a reload starts a new verifier.
- The 2-second delay before `resetUploadForm` after a successful store is left out. The reset happens at once, and actions in between are not modelled.
- Async interleavings between concurrent user actions are left out; every operation runs to completion on its own.
- Timestamps (`Date`, locale formatting) are left out: a log entry has no time.
- The smart contract's own storage and access control are not part of this model. Its answers are parameters, and the model does not relate successive answers to each other.
- SHA-256 itself and `FileReader` are left out. The digest is any function with 32-byte results, and a read or digest failure is a parameter.
- The initial text of the progress steps comes from the page markup, which is not part of this model. A new verifier starts with the steps as a reset leaves them.
- JsString.ToLowerCase: only ASCII letters are folded, not the full Unicode case mapping. Account addresses are ASCII. The file check at client/app.js:397 gives the same accept or reject answer under the full mapping: no non-ASCII character lower-cases to '.', 'p', 'd' or 'f', and the one mapping that expands (U+0130 to "i" followed by U+0307) ends in a non-ASCII mark.
- JsString.Trim and the 64-character checks count `char`s. JavaScript counts UTF-16 code units, which can differ for text outside the Basic Multilingual Plane.
- A call through a contract that was never bound raises a TypeError. Its text is modelled as one fixed message.
- The confirmation dialogs (`confirm`) are a boolean parameter.
- The client's constructor starts `init()` without waiting for it. The model's constructor only sets the fields, and start-up is the separate method `Init`.
- The text of a progress step (`StatusText`) is display only. The steps array holds the status, and the text is not part of any method's state.
- Verifier.VeriChainDocumentVerifier.ConnectWallet: the status of the inner `setConnected` is not part of the result. The client reports success even when loading the contract data then failed, as the source does.
