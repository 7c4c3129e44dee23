/** The pure rules of the VeriChain client: which files may be hashed, how the
    caller's role follows from the contract's answers, how an address is
    shortened for display, the gas margin, the text of a progress step and
    the capped, newest-first activity log. */
module Helpers {
  import opened Common
  import opened Hex
  import opened JsString

  /** A file picked or dropped by the user. */
  datatype File = File(name: string, mimeType: string, content: seq<byte>)

  /** A SHA-256 implementation as the platform provides it: every digest is 32 bytes. */
  type Digester = f: seq<byte> -> seq<byte> | forall b :: |f(b)| == 32
    witness (b: seq<byte>) => seq(32, _ => 0 as byte)

  /** PDF, DOC, DOCX and plain text, by media type. */
  const AllowedTypes: seq<string> := [
    "application/pdf",
    "application/msword",
    "application/vnd.openxmlformats-officedocument.wordprocessingml.document",
    "text/plain"
  ]

  /** The check handleFile makes before it stages or verifies a file. */
  predicate IsAllowedFile(file: File)
  {
    file.mimeType in AllowedTypes || EndsWith(ToLowerCase(file.name), ".pdf")
  }

  /** The name ends in ".pdf" in any mix of letter case. */
  predicate HasPdfExtension(name: string)
  {
    var n := |name|;
    n >= 4 && name[n - 4] == '.' && name[n - 3] in "pP" && name[n - 2] in "dD" && name[n - 1] in "fF"
  }

  /** A file is accepted exactly when its media type is allow-listed or its
      name carries a .pdf extension, whatever the case of the extension. */
  lemma AllowedFileIff(file: File)
    ensures IsAllowedFile(file) <==> file.mimeType in AllowedTypes || HasPdfExtension(file.name)
  {
    var name := file.name;
    var lower := ToLowerCase(name);
    var n := |name|;
    if n >= 4 {
      if HasPdfExtension(name) {
        assert lower[n - 4..] == ".pdf";
      }
      if EndsWith(lower, ".pdf") {
        assert lower[n - 4] == '.' && lower[n - 3] == 'p' && lower[n - 2] == 'd' && lower[n - 1] == 'f';
      }
    }
  }

  /** The role the client derives for the connected account. Unknown is the
      state before any role was derived. */
  datatype Role = Unknown | Owner | Exporter | User

  /** Two addresses name the same account when they agree up to letter case. */
  predicate SameAccount(a: string, b: string)
  {
    |a| == |b| && forall i :: 0 <= i < |a| ==> LowerChar(a[i]) == LowerChar(b[i])
  }

  /** The role of `account`, given the owner the contract reports and its
      answer to isExporter(account): ownership takes precedence. */
  function DeriveRole(owner: string, account: string, isExporter: bool): (role: Role)
    ensures role != Unknown
    ensures role == Owner <==> SameAccount(owner, account)
    ensures role == Exporter <==> !SameAccount(owner, account) && isExporter
    ensures role == User <==> !SameAccount(owner, account) && !isExporter
  {
    var same := ToLowerCase(owner) == ToLowerCase(account);
    assert same <==> SameAccount(owner, account) by {
      if SameAccount(owner, account) {
        assert ToLowerCase(owner) == ToLowerCase(account);
      }
      if same {
        forall i | 0 <= i < |owner| ensures LowerChar(owner[i]) == LowerChar(account[i]) {
          assert ToLowerCase(owner)[i] == ToLowerCase(account)[i];
        }
      }
    }
    if same then Owner else if isExporter then Exporter else User
  }

  /** The short form of an address shown in the page (formatAddress). */
  function FormatAddress(address: string): string
  {
    if address == "" then "" else Slice(address, 0, 6) + "..." + Slice(address, -4, |address|)
  }

  /** The short form is the first six and the last four characters around
      "...", nothing for an empty address, and thirteen characters for any
      address of ten or more (a 42-character account among them). */
  lemma FormatAddressForm(address: string)
    ensures address == "" ==> FormatAddress(address) == ""
    ensures address != "" ==>
              FormatAddress(address) == address[..Min(6, |address|)] + "..." + address[|address| - Min(4, |address|)..]
    ensures |address| >= 10 ==>
              var r := FormatAddress(address);
              |r| == 13 && r[..6] == address[..6] && r[6..9] == "..." && r[9..] == address[|address| - 4..]
  {
  }

  /** `Math.floor(gasEstimate * 1.2)` read as exact arithmetic: the largest
      whole amount not above six fifths of the estimate, never below it. */
  function GasWithMargin(estimate: nat): (gas: nat)
    ensures estimate <= gas
    ensures 5 * gas <= 6 * estimate < 5 * gas + 5
  {
    estimate * 6 / 5
  }

  /** The state of one of the four upload progress steps; Cleared is the
      empty status the reset gives every step. */
  datatype StepStatus = Completed | Active | Cleared

  /** The status text updateProgressStep writes into a step. */
  function StatusText(status: StepStatus): string
  {
    match status
    case Completed => "Completed"
    case Active => "In Progress"
    case Cleared => "Pending"
  }

  /** The three states read differently on the page. */
  lemma StatusTextDistinct(a: StepStatus, b: StepStatus)
    ensures StatusText(a) == StatusText(b) ==> a == b
  {
  }

  datatype LogKind = Info | Success | Warning | Error

  /** One entry of the activity log; the timestamp is not modelled. */
  datatype LogEntry = LogEntry(kind: LogKind, category: string, description: string, txHash: Option<string>)

  const MaxLogEntries: nat := 50

  /** The log after one more entry: the new entry first, then the older ones
      in order, as many as fit in MaxLogEntries. */
  function Logged(log: seq<LogEntry>, entry: LogEntry): (r: seq<LogEntry>)
    ensures |r| == Min(|log| + 1, MaxLogEntries)
    ensures r[0] == entry
    ensures r[1..] == log[..|r| - 1]
  {
    ([entry] + log)[..Min(|log| + 1, MaxLogEntries)]
  }

  /** The log after several entries, the first of `entries` logged first. */
  function LoggedAll(log: seq<LogEntry>, entries: seq<LogEntry>): seq<LogEntry>
    decreases |entries|
  {
    if entries == [] then log else LoggedAll(Logged(log, entries[0]), entries[1..])
  }

  function Reversed<T>(s: seq<T>): (r: seq<T>)
    ensures |r| == |s|
  {
    if s == [] then [] else Reversed(s[1..]) + [s[0]]
  }

  lemma PrefixOfTruncated<T>(a: seq<T>, b: seq<T>, m: nat, k: nat)
    requires m <= |b| && k <= |a| + m
    ensures (a + b[..m])[..k] == (a + b)[..k]
  {
  }

  /** Whatever was logged, the log holds the newest MaxLogEntries entries,
      newest first. */
  lemma {:induction false} LoggedAllNewestFirst(log: seq<LogEntry>, entries: seq<LogEntry>)
    requires |log| <= MaxLogEntries
    ensures LoggedAll(log, entries) == (Reversed(entries) + log)[..Min(|entries| + |log|, MaxLogEntries)]
    decreases |entries|
  {
    if entries == [] {
    } else {
      var e, rest := entries[0], entries[1..];
      var once := Logged(log, e);
      LoggedAllNewestFirst(once, rest);
      assert Reversed(entries) == Reversed(rest) + [e];
      var m := Min(|log| + 1, MaxLogEntries);
      assert once == ([e] + log)[..m];
      PrefixOfTruncated(Reversed(rest), [e] + log, m, Min(|rest| + |once|, MaxLogEntries));
      assert Reversed(rest) + ([e] + log) == Reversed(entries) + log;
    }
  }
}
