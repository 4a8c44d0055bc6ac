/** The read-only contract viewer: the status lifecycle (which statuses a
    contract may move to next), the status colour, the terminal banner, how
    each field value is displayed, and the status-change requests offered. */
module ContractView {
  import opened Wrappers
  import opened Entities

  /** CONTRACT_STATUSES, in lifecycle order. */
  const ContractStatuses: seq<Status> := [Created, Approved, Sent, Signed, Locked, Revoked]

  /** `Array.prototype.indexOf`: the first position holding `x`, or -1. */
  function IndexOf<T(==)>(xs: seq<T>, x: T): (i: int)
    ensures -1 <= i < |xs|
    ensures i == -1 <==> x !in xs
    ensures 0 <= i ==> xs[i] == x && x !in xs[..i]
  {
    if xs == [] then -1
    else if xs[0] == x then 0
    else
      var j := IndexOf(xs[1..], x);
      if j == -1 then -1 else j + 1
  }

  /** The position of a status in CONTRACT_STATUSES (-1 when unknown): the
      `statusIndex` that getNextStatuses computes and then never reads. */
  function StatusIndex(s: Status): int
  {
    IndexOf(ContractStatuses, s)
  }

  /** getNextStatuses: the statuses the viewer offers as the next step. At
      most two are offered, and they are exactly the lifecycle table's
      targets from `s`. */
  function NextStatuses(s: Status): (r: seq<Status>)
    ensures |r| <= 2
    ensures forall t :: t in r <==> (s, t) in TransitionTable
  {
    if s == Locked || s == Revoked then []
    else if s == Created then [Approved, Revoked]
    else if s == Approved then [Sent, Revoked]
    else if s == Sent then [Signed, Revoked]
    else if s == Signed then [Locked, Revoked]
    else []
  }

  /** The place of each status in CONTRACT_STATUSES, written out (-1 for Unknown). */
  function Rank(s: Status): int
  {
    match s
    case Created => 0
    case Approved => 1
    case Sent => 2
    case Signed => 3
    case Locked => 4
    case Revoked => 5
    case Unknown => -1
  }

  /** indexOf over CONTRACT_STATUSES finds each status at its own place. */
  lemma StatusIndexValues(s: Status)
    ensures StatusIndex(s) == Rank(s)
  {
  }

  /** Locked and Revoked are terminal, and so is any status not in the list. */
  lemma TerminalStatuses(s: Status)
    ensures NextStatuses(s) == [] <==> s == Locked || s == Revoked || Rank(s) == -1
  {
  }

  /** Each of Created, Approved, Sent and Signed offers exactly two next
      statuses: its successor in CONTRACT_STATUSES, then Revoked. */
  lemma SuccessorThenRevoked(s: Status)
    requires 0 <= Rank(s) < 4
    ensures NextStatuses(s) == [ContractStatuses[Rank(s) + 1], Revoked]
  {
  }

  /** No transition leads to Created or to Unknown, and every transition
      moves strictly forward in CONTRACT_STATUSES. */
  lemma TransitionsMoveForward(s: Status, t: Status)
    requires t in NextStatuses(s)
    ensures t != Created && t != Unknown
    ensures 0 <= Rank(s) < Rank(t)
  {
  }

  /** The lifecycle table, written as the set of allowed (from, to) pairs. */
  const TransitionTable: set<(Status, Status)> := {
    (Created, Approved), (Created, Revoked),
    (Approved, Sent), (Approved, Revoked),
    (Sent, Signed), (Sent, Revoked),
    (Signed, Locked), (Signed, Revoked)
  }

  /** A sequence of statuses each of which is offered after the one before. */
  predicate IsChain(c: seq<Status>)
  {
    |c| <= 1 || (c[1] in NextStatuses(c[0]) && IsChain(c[1..]))
  }

  /** The largest number of transitions that can still follow a status. */
  function Remaining(s: Status): nat
  {
    match s
    case Created => 4
    case Approved => 3
    case Sent => 2
    case Signed => 1
    case _ => 0
  }

  /** Every transition lowers the remaining distance. */
  lemma TransitionLowersRemaining(s: Status, t: Status)
    requires t in NextStatuses(s)
    ensures Remaining(t) < Remaining(s)
  {
  }

  /** A chain from any status makes at most Remaining(start) transitions. */
  lemma {:induction false} ChainLengthBound(c: seq<Status>)
    requires IsChain(c) && |c| > 0
    ensures |c| <= Remaining(c[0]) + 1
  {
    if |c| > 1 {
      TransitionLowersRemaining(c[0], c[1]);
      ChainLengthBound(c[1..]);
    }
  }

  /** A chain that starts at a listed status never reaches Unknown. */
  lemma {:induction false} ChainStaysListed(c: seq<Status>)
    requires IsChain(c) && |c| > 0 && c[0] != Unknown
    ensures forall i :: 0 <= i < |c| ==> c[i] != Unknown
  {
    if |c| > 1 {
      ChainStaysListed(c[1..]);
      forall i | 1 <= i < |c| ensures c[i] != Unknown {
        assert c[i] == c[1..][i - 1];
      }
    }
  }

  /** From Created, any chain makes at most four transitions, and a chain
      that can go no further has reached Locked or Revoked. */
  lemma ChainFromCreated(c: seq<Status>)
    requires IsChain(c) && |c| > 0 && c[0] == Created
    ensures |c| <= 5
    ensures NextStatuses(c[|c| - 1]) == [] ==> c[|c| - 1] == Locked || c[|c| - 1] == Revoked
  {
    ChainLengthBound(c);
    ChainStaysListed(c);
  }

  /** The colour table of getStatusColor. */
  const StatusColors: map<Status, string> := map[
    Created := "bg-gray-200 text-gray-700",
    Approved := "bg-blue-200 text-blue-700",
    Sent := "bg-yellow-200 text-yellow-700",
    Signed := "bg-purple-200 text-purple-700",
    Locked := "bg-green-200 text-green-700",
    Revoked := "bg-red-200 text-red-700"
  ]

  const DefaultColor: string := "bg-gray-200 text-gray-700"

  /** getStatusColor: `colors[status] || default`. The `||` never falls
      back for a listed status, and an unknown status gets Created's gray. */
  function StatusColor(s: Status): (c: string)
    ensures 0 <= Rank(s) ==> c == StatusColors[s]
    ensures Rank(s) == -1 ==> c == DefaultColor == StatusColors[Created]
  {
    if s in StatusColors && StatusColors[s] != "" then StatusColors[s] else DefaultColor
  }

  /** The six listed statuses get six different colours. */
  lemma StatusColorTable(s: Status, t: Status)
    ensures 0 <= Rank(s) && 0 <= Rank(t) && s != t ==> StatusColor(s) != StatusColor(t)
  {
  }

  const LockedMessage: string := "This contract is locked and cannot be edited"
  const RevokedMessage: string := "This contract has been revoked and cannot proceed further"

  /** The banner shown above the details, if any: shown exactly for Locked
      and Revoked, with the locked text exactly for Locked. */
  function TerminalBanner(s: Status): (b: Option<string>)
    ensures b.Some? <==> s == Locked || s == Revoked
    ensures b == Some(LockedMessage) <==> s == Locked
  {
    if s == Locked || s == Revoked then
      Some(if s == Locked then LockedMessage else RevokedMessage)
    else None
  }

  /** The banner appears exactly for the listed statuses that offer no next
      status. */
  lemma BannerForTerminalStatuses(s: Status)
    ensures TerminalBanner(s).Some? <==> NextStatuses(s) == [] && Rank(s) != -1
  {
  }

  /** What the viewer shows for one field: a fixed message, the name of an
      uploaded file, or the stored value itself. */
  datatype Display = Message(text: string) | FileName(name: string) | Raw(value: Value)

  const CheckedText: string := "✓ Checked"
  const UncheckedText: string := "✗ Unchecked"
  const NotProvidedText: string := "(Not provided)"

  /** The display dispatch for one field of the blueprint. */
  function DisplayValue(f: Field, values: map<FieldId, Value>): (d: Display)
    ensures f.kind == Checkbox ==>
      d == Message(if Truthy(Lookup(values, f.id)) then CheckedText else UncheckedText)
    ensures f.kind == Signature && Lookup(values, f.id).File? ==>
      d == FileName(Lookup(values, f.id).fileName)
    ensures f.kind != Checkbox && !Truthy(Lookup(values, f.id)) ==> d == Message(NotProvidedText)
    ensures d.Raw? <==>
      f.kind != Checkbox && Truthy(Lookup(values, f.id)) && !(f.kind == Signature && Lookup(values, f.id).File?)
    ensures d.Raw? ==> d.value == Lookup(values, f.id)
  {
    var v := Lookup(values, f.id);
    if f.kind == Checkbox then Message(if Truthy(v) then CheckedText else UncheckedText)
    else if f.kind == Signature && v.File? then FileName(v.fileName)
    else if Truthy(v) then Raw(v)
    else Message(NotProvidedText)
  }

  /** `blueprint.fields.map(...)`: one display per field, in field order. */
  function FieldDisplays(fields: seq<Field>, values: map<FieldId, Value>): (ds: seq<Display>)
    ensures |ds| == |fields|
    ensures forall i :: 0 <= i < |fields| ==> ds[i] == DisplayValue(fields[i], values)
  {
    if fields == [] then []
    else [DisplayValue(fields[0], values)] + FieldDisplays(fields[1..], values)
  }

  /** The request a status button sends to `onUpdateStatus`. */
  datatype StatusRequest = StatusRequest(contractId: int, target: Status)

  function Requests(id: int, targets: seq<Status>): (rs: seq<StatusRequest>)
    ensures |rs| == |targets|
    ensures forall i :: 0 <= i < |targets| ==> rs[i] == StatusRequest(id, targets[i])
  {
    if targets == [] then []
    else [StatusRequest(id, targets[0])] + Requests(id, targets[1..])
  }

  /** The buttons of the "Available Actions" block, one per next status:
      each sends the contract's own id and a transition of the table. */
  function StatusActions(c: Contract): (rs: seq<StatusRequest>)
    ensures |rs| == |NextStatuses(c.status)|
    ensures forall r :: r in rs ==> r.contractId == c.id && (c.status, r.target) in TransitionTable
  {
    Requests(c.id, NextStatuses(c.status))
  }

  /** Whether the "Available Actions" block is shown at all: exactly for the
      first four statuses of CONTRACT_STATUSES. */
  predicate ShowsActions(c: Contract)
    ensures ShowsActions(c) <==> 0 <= Rank(c.status) < 4
  {
    |NextStatuses(c.status)| > 0
  }

  /** A shown block offers two requests; a hidden one offers none. */
  lemma ActionsFollowTable(c: Contract)
    ensures ShowsActions(c) ==> |StatusActions(c)| == 2
    ensures !ShowsActions(c) ==> StatusActions(c) == []
  {
  }

  /** A contract from the NDA blueprint with only Party filled in shows
      "Acme" for Party and the placeholder for Effective Date; at Signed it
      offers exactly Locked and Revoked, never Approved. */
  lemma NdaContractDisplayed(c: Contract)
    requires c.fieldValues == map[1 := Str("Acme")]
    ensures FieldDisplays([Field(1, Text, "Party", 0), Field(2, Date, "Effective Date", 1)], c.fieldValues)
      == [Raw(Str("Acme")), Message(NotProvidedText)]
    ensures c.status == Signed ==>
      StatusActions(c) == [StatusRequest(c.id, Locked), StatusRequest(c.id, Revoked)]
      && (Signed, Approved) !in TransitionTable
  {
  }

  /** For values the form stores against a blueprint with unique ids, the
      viewer never shows a raw boolean or a raw file: a raw display is
      always a non-empty string. */
  lemma FittingValuesDisplayAsText(fields: seq<Field>, values: map<FieldId, Value>)
    requires ValuesFit(fields, values) && UniqueIds(fields)
    ensures forall i :: 0 <= i < |fields| && DisplayValue(fields[i], values).Raw? ==>
      DisplayValue(fields[i], values).value.Str? && DisplayValue(fields[i], values).value.text != ""
  {
  }
}
