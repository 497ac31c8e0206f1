/** The SNMP client's subtree walk: GETBULK pages, bounded by the subtree and
    guarded against agents whose OIDs do not increase (sections 4.2.2 and 4.2.3 of
    RFC 3416). */
module SubtreeWalk {
  import opened Prelude
  import opened OidText

  // ------------------------------------------------------------------
  // Varbinds and rows
  // ------------------------------------------------------------------

  datatype Wire =
    | Integer(n: int)
    | Gauge32(n: int)
    | Uinteger32(n: int)
    | Counter32(n: int)
    | Counter64(n: int)
    | TimeTicks(n: int)
    | OctetString(bytes: Bytes)
    | IpAddress(text: string)
    | ObjectIdentifier(text: string)
    | NoSuchObject
    | NoSuchInstance
    | EndOfMibView
    | Unsupported
  {
    /** The types that end a walk. */
    predicate Absent() {
      NoSuchObject? || NoSuchInstance? || EndOfMibView?
    }
  }

  datatype Pdu = Pdu(name: string, value: Wire)

  datatype RowValue = Number(n: int) | Text(s: string) | Raw(bytes: Bytes)

  datatype Row = Row(oid: string, typ: string, value: RowValue)

  predicate Printable(bytes: Bytes) {
    forall i :: 0 <= i < |bytes| ==> 0x20 <= bytes[i] <= 0x7E
  }

  function Chars(bytes: Bytes): string {
    seq(|bytes|, i requires 0 <= i < |bytes| => bytes[i] as char)
  }

  /** normalizeVarbind: None for a type the client does not decode. */
  function Normalize(pdu: Pdu): Option<Row> {
    var oid := TrimDots(pdu.name);
    match pdu.value
    case Integer(n) => Some(Row(oid, "INTEGER", Number(n)))
    case Gauge32(n) => Some(Row(oid, "Gauge32", Number(n)))
    case Uinteger32(n) => Some(Row(oid, "Gauge32", Number(n)))
    case Counter32(n) => Some(Row(oid, "Counter32", Number(n)))
    case Counter64(n) => Some(Row(oid, "Counter64", Number(n)))
    case TimeTicks(n) => Some(Row(oid, "Timeticks", Number(n)))
    case OctetString(bytes) =>
      if Printable(bytes) then Some(Row(oid, "STRING", Text(Chars(bytes))))
      else Some(Row(oid, "Hex-STRING", Raw(bytes)))
    case IpAddress(text) => Some(Row(oid, "IpAddress", Text(text)))
    case ObjectIdentifier(text) => Some(Row(oid, "OID", Text(TrimDots(text))))
    case NoSuchObject => Some(Row(oid, "NOSUCHOBJECT", Text("")))
    case NoSuchInstance => Some(Row(oid, "NOSUCHINSTANCE", Text("")))
    case EndOfMibView => Some(Row(oid, "ENDOFMIBVIEW", Text("")))
    case Unsupported => None
  }

  // ------------------------------------------------------------------
  // Agents
  // ------------------------------------------------------------------

  /** What one GETBULK request comes to. */
  datatype Response =
    | NoAnswer                    // a transport failure
    | ErrorStatus(code: int)
    | Page(vars: seq<Pdu>)

  /** An agent's side of a walk: its response to each request in turn. */
  type Agent = nat -> Response

  const MAX_REPETITIONS: nat := 25

  datatype Entry = Entry(oid: Oid, value: Wire)

  type Mib = seq<Entry>

  ghost predicate WellFormedMib(mib: Mib) {
    && (forall i :: 0 <= i < |mib| ==> Proper(mib[i].oid) && !mib[i].value.Absent())
    && forall i, j :: 0 <= i < j < |mib| ==> Less(mib[i].oid, mib[j].oid)
  }

  /** How many entries do not come after `oid`. */
  ghost function Upto(mib: Mib, oid: Oid): (k: nat)
    ensures k <= |mib|
    ensures k < |mib| ==> Less(oid, mib[k].oid)
  {
    if mib == [] || Less(oid, mib[0].oid) then 0 else 1 + Upto(mib[1..], oid)
  }

  function EntryPdu(e: Entry): Pdu
    requires Proper(e.oid)
  {
    Pdu("." + Render(e.oid), e.value)
  }

  /** A GETBULK answer as RFC 3416 has it: the entries after the requested OID, in
      order, as many as the agent cares to send but at least one, then endOfMibView. */
  ghost predicate Answers(mib: Mib, requested: string, response: Response)
    requires WellFormedMib(mib)
  {
    Parse(requested).Some? ==>
      && response.Page?
      && 1 <= |response.vars| <= MAX_REPETITIONS
      && var first := Upto(mib, Parse(requested).value);
         forall j :: 0 <= j < |response.vars| ==>
           if first + j < |mib| then response.vars[j] == EntryPdu(mib[first + j])
           else response.vars[j].value.EndOfMibView?
  }

  /** The OID of the n-th request: the base, then the last name received. */
  ghost function Request(agent: Agent, base: string, n: nat): string {
    if n == 0 then base
    else if agent(n - 1).Page? && agent(n - 1).vars != [] then
      var vars := agent(n - 1).vars;
      vars[|vars| - 1].name
    else base
  }

  ghost predicate AnswersRound(mib: Mib, agent: Agent, base: string, n: nat)
    requires WellFormedMib(mib)
  {
    Answers(mib, Request(agent, base, n), agent(n))
  }

  ghost predicate Conforms(mib: Mib, agent: Agent, base: string) {
    && WellFormedMib(mib)
    && forall n: nat :: AnswersRound(mib, agent, base, n)
  }

  // ------------------------------------------------------------------
  // What a walk should return
  // ------------------------------------------------------------------

  /** The rows of the entries below base, among the first k. */
  ghost function RowsBelow(mib: Mib, base: Oid, k: nat): seq<Row>
    requires WellFormedMib(mib) && k <= |mib|
  {
    if k == 0 then [] else RowsBelow(mib, base, k - 1) + RowBelow(mib[k - 1], base)
  }

  /** The row of an entry, if it is below base and of a type the client decodes. */
  ghost function RowBelow(e: Entry, base: Oid): seq<Row>
    requires Proper(e.oid)
  {
    var row := Normalize(EntryPdu(e));
    if Below(base, e.oid) && row.Some? then [row.value] else []
  }

  /** Every entry below base, among the first k, has a type the client decodes. */
  ghost predicate Supported(mib: Mib, base: Oid, k: nat)
    requires WellFormedMib(mib) && k <= |mib|
  {
    forall i :: 0 <= i < k && Below(base, mib[i].oid) ==> Normalize(EntryPdu(mib[i])).Some?
  }

  /** A row shows an entry: its OID without a leading dot, its type's name, and its
      value. Octets are shown as the characters they are, unless one of them is not
      printable; then they are shown raw. */
  ghost predicate Depicts(e: Entry, row: Row)
    requires Proper(e.oid)
  {
    row.oid == Render(e.oid) &&
    match e.value
    case Integer(n) => row.typ == "INTEGER" && row.value == Number(n)
    case Gauge32(n) => row.typ == "Gauge32" && row.value == Number(n)
    case Uinteger32(n) => row.typ == "Gauge32" && row.value == Number(n)
    case Counter32(n) => row.typ == "Counter32" && row.value == Number(n)
    case Counter64(n) => row.typ == "Counter64" && row.value == Number(n)
    case TimeTicks(n) => row.typ == "Timeticks" && row.value == Number(n)
    case OctetString(bytes) =>
      if exists i :: 0 <= i < |bytes| && (bytes[i] < 0x20 || bytes[i] > 0x7E) then
        row.typ == "Hex-STRING" && row.value == Raw(bytes)
      else
        row.typ == "STRING" && row.value.Text? && |row.value.s| == |bytes|
        && forall i :: 0 <= i < |bytes| ==> row.value.s[i] as int == bytes[i]
    case IpAddress(text) => row.typ == "IpAddress" && row.value == Text(text)
    case ObjectIdentifier(text) =>
      // the text from its first character that is not a dot on
      row.typ == "OID" && row.value.Text? && |row.value.s| <= |text|
      && row.value.s == text[|text| - |row.value.s|..]
      && (row.value.s == "" || row.value.s[0] != '.')
      && forall i :: 0 <= i < |text| - |row.value.s| ==> text[i] == '.'
    // markers, which a walk never reports
    case NoSuchObject => row.typ == "NOSUCHOBJECT" && row.value == Text("")
    case NoSuchInstance => row.typ == "NOSUCHINSTANCE" && row.value == Text("")
    case EndOfMibView => row.typ == "ENDOFMIBVIEW" && row.value == Text("")
    case Unsupported => false
  }

  /** The rows show the entries below base among the first k, each once and in order. */
  ghost predicate Lists(mib: Mib, base: Oid, k: nat, rows: seq<Row>)
    requires WellFormedMib(mib) && k <= |mib|
    decreases k
  {
    if k == 0 then rows == []
    else if Below(base, mib[k - 1].oid) then
      rows != [] && Depicts(mib[k - 1], rows[|rows| - 1]) && Lists(mib, base, k - 1, rows[..|rows| - 1])
    else Lists(mib, base, k - 1, rows)
  }

  lemma {:induction false} TrimDotsMeaning(text: string)
    ensures var r := TrimDots(text);
            && |r| <= |text| && r == text[|text| - |r|..] && (r == "" || r[0] != '.')
            && forall i :: 0 <= i < |text| - |r| ==> text[i] == '.'
  {
    if text != "" && text[0] == '.' {
      var rest := text[1..];
      TrimDotsMeaning(rest);
      var r := TrimDots(rest);
      assert text[|text| - |r|..] == rest[|rest| - |r|..];
      assert forall i :: 1 <= i < |text| - |r| ==> text[i] == rest[i - 1];
    }
  }

  /** Every entry has a row that shows it, unless its type is not decoded. */
  lemma {:induction false} EntryDepicted(e: Entry)
    requires Proper(e.oid)
    ensures Normalize(EntryPdu(e)).Some? <==> e.value != Unsupported
    ensures Normalize(EntryPdu(e)).Some? ==> Depicts(e, Normalize(EntryPdu(e)).value)
  {
    RenderParses(e.oid);
    if e.value.ObjectIdentifier? {
      TrimDotsMeaning(e.value.text);
    }
  }

  /** The rows a walk collects show the entries it should. */
  lemma {:induction false} RowsList(mib: Mib, base: Oid, k: nat)
    requires WellFormedMib(mib) && k <= |mib|
    ensures Supported(mib, base, k) <==> forall i :: 0 <= i < k && Below(base, mib[i].oid) ==> mib[i].value != Unsupported
    ensures Supported(mib, base, k) ==> Lists(mib, base, k, RowsBelow(mib, base, k))
  {
    forall i | 0 <= i < k ensures Normalize(EntryPdu(mib[i])).Some? <==> mib[i].value != Unsupported {
      EntryDepicted(mib[i]);
    }
    if k > 0 && Supported(mib, base, k) {
      RowsList(mib, base, k - 1);
      EntryDepicted(mib[k - 1]);
      RowListed(mib, base, k, RowsBelow(mib, base, k - 1));
    }
  }

  lemma {:induction false} RowListed(mib: Mib, base: Oid, k: nat, rows: seq<Row>)
    requires WellFormedMib(mib) && 0 < k <= |mib| && Lists(mib, base, k - 1, rows)
    requires Normalize(EntryPdu(mib[k - 1])).Some? ==> Depicts(mib[k - 1], Normalize(EntryPdu(mib[k - 1])).value)
    requires Below(base, mib[k - 1].oid) ==> Normalize(EntryPdu(mib[k - 1])).Some?
    ensures Lists(mib, base, k, rows + RowBelow(mib[k - 1], base))
  {
    var more := RowBelow(mib[k - 1], base);
    if Below(base, mib[k - 1].oid) {
      assert (rows + more)[..|rows|] == rows;
    } else {
      assert rows + more == rows;
    }
  }

  lemma {:induction false} UptoMember(mib: Mib, i: nat)
    requires WellFormedMib(mib) && i < |mib|
    ensures Upto(mib, mib[i].oid) == i + 1
  {
    LessTotal(mib[i].oid, mib[i].oid);
    if i == 0 {
      assert |mib| > 1 ==> Less(mib[0].oid, mib[1].oid);
    } else {
      LessTotal(mib[0].oid, mib[i].oid);
      assert WellFormedMib(mib[1..]);
      UptoMember(mib[1..], i - 1);
    }
  }

  lemma {:induction false} UptoBefore(mib: Mib, oid: Oid, i: nat)
    requires i < Upto(mib, oid)
    ensures !Less(oid, mib[i].oid)
  {
    if i > 0 {
      UptoBefore(mib[1..], oid, i - 1);
    }
  }

  /** One entry more, not below base. */
  lemma {:induction false} SupportedFurther(mib: Mib, base: Oid, k: nat)
    requires WellFormedMib(mib) && k < |mib| && !Below(base, mib[k].oid)
    ensures Supported(mib, base, k) ==> Supported(mib, base, k + 1)
  {
  }

  /** Nothing up to base is below it. */
  lemma {:induction false} NoneBefore(mib: Mib, base: Oid, k: nat)
    requires WellFormedMib(mib) && k <= Upto(mib, base)
    ensures RowsBelow(mib, base, k) == [] && Supported(mib, base, k)
  {
    if k > 0 {
      NoneBefore(mib, base, k - 1);
      UptoBefore(mib, base, k - 1);
      if Below(base, mib[k - 1].oid) {
        BelowIsGreater(base, mib[k - 1].oid);
      }
      SupportedFurther(mib, base, k - 1);
    }
  }

  /** An entry after one that is past the subtree is past it too. */
  lemma {:induction false} StaysPast(mib: Mib, base: Oid, k: nat, i: nat)
    requires WellFormedMib(mib) && k <= i < |mib| && Less(base, mib[k].oid) && !Below(base, mib[k].oid)
    ensures !Below(base, mib[i].oid)
  {
    if k < i && Below(base, mib[i].oid) {
      SubtreeContiguous(base, mib[k].oid, mib[i].oid);
    }
  }

  lemma {:induction false} NoRow(rows: seq<Row>, e: Entry, base: Oid)
    requires Proper(e.oid) && !Below(base, e.oid)
    ensures rows + RowBelow(e, base) == rows
  {
  }

  /** The entries from the k-th to before the n-th are past the subtree. */
  ghost predicate Past(mib: Mib, base: Oid, k: nat, n: nat)
    requires k <= n <= |mib|
  {
    n == k || (Past(mib, base, k, n - 1) && !Below(base, mib[n - 1].oid))
  }

  lemma {:induction false} AllPast(mib: Mib, base: Oid, k: nat, n: nat)
    requires WellFormedMib(mib) && k <= n <= |mib|
    requires k < |mib| ==> Less(base, mib[k].oid) && !Below(base, mib[k].oid)
    ensures Past(mib, base, k, n)
  {
    if k < n {
      AllPast(mib, base, k, n - 1);
      StaysPast(mib, base, k, n - 1);
    }
  }

  lemma {:induction false} RowsStay(mib: Mib, base: Oid, k: nat, n: nat)
    requires WellFormedMib(mib) && k <= n <= |mib| && Past(mib, base, k, n)
    ensures RowsBelow(mib, base, n) == RowsBelow(mib, base, k)
    ensures Supported(mib, base, k) ==> Supported(mib, base, n)
  {
    if k < n {
      RowsStay(mib, base, k, n - 1);
      NoRow(RowsBelow(mib, base, n - 1), mib[n - 1], base);
      SupportedFurther(mib, base, n - 1);
    }
  }

  /** Once the walk meets an entry that is not below base, none is left. */
  lemma {:induction false} NoneAfter(mib: Mib, base: Oid, k: nat, n: nat)
    requires WellFormedMib(mib) && k <= n <= |mib|
    requires k < |mib| ==> Less(base, mib[k].oid) && !Below(base, mib[k].oid)
    ensures RowsBelow(mib, base, n) == RowsBelow(mib, base, k)
    ensures Supported(mib, base, k) ==> Supported(mib, base, n)
  {
    AllPast(mib, base, k, n);
    RowsStay(mib, base, k, n);
  }

  // ------------------------------------------------------------------
  // A measure on OIDs
  // ------------------------------------------------------------------

  /** At most depth numbers, each of size below width. */
  ghost predicate Fits(oid: Oid, depth: nat, width: nat) {
    |oid| <= depth && forall i :: 0 <= i < |oid| ==> 0 - width < oid[i] < width
  }

  /** Multiplication as repeated addition, which keeps the measure linear. */
  ghost function Times(a: nat, b: nat): nat {
    if a == 0 then 0 else Times(a - 1, b) + b
  }

  lemma {:induction false} TimesGrows(a: nat, b: nat, size: nat)
    requires a <= b
    ensures Times(b, size) >= Times(a, size)
    ensures a < b ==> Times(b, size) >= Times(a, size) + size
  {
    if a < b {
      TimesGrows(a, b - 1, size);
    }
  }

  ghost function Room(depth: nat, width: nat): (r: nat)
    requires width > 0
    ensures r > 0
  {
    if depth == 0 then 1
    else
      TimesGrows(0, 2 * width, Room(depth - 1, width));
      Times(2 * width, Room(depth - 1, width))
  }

  /** An OID's place among those that fit. */
  ghost function Place(oid: Oid, depth: nat, width: nat): (p: nat)
    requires Fits(oid, depth, width) && width > 0
    ensures p < Room(depth, width)
  {
    if depth == 0 || oid == [] then 0
    else
      TimesGrows(oid[0] + width, 2 * width, Room(depth - 1, width));
      Times(oid[0] + width, Room(depth - 1, width)) + Place(oid[1..], depth - 1, width)
  }

  /** A greater OID has a greater place. */
  lemma {:induction false} PlaceIncreases(a: Oid, b: Oid, depth: nat, width: nat)
    requires Fits(a, depth, width) && Fits(b, depth, width) && width > 0
    requires Less(a, b)
    ensures Place(a, depth, width) < Place(b, depth, width)
  {
    var size := Room(depth - 1, width);
    if a == [] {
      TimesGrows(0, b[0] + width, size);
    } else if a[0] == b[0] {
      PlaceIncreases(a[1..], b[1..], depth - 1, width);
    } else {
      TimesGrows(a[0] + width, b[0] + width, size);
    }
  }

  /** Every OID an agent names fits: datagrams and Go's int are finite. */
  ghost predicate Bounded(agent: Agent, depth: nat, width: nat) {
    forall n: nat, j :: agent(n).Page? && 0 <= j < |agent(n).vars| && Parse(agent(n).vars[j].name).Some? ==>
      Fits(Parse(agent(n).vars[j].name).value, depth, width)
  }

  // ------------------------------------------------------------------
  // One page
  // ------------------------------------------------------------------

  datatype WalkError =
    | MalformedBase
    | Transport
    | AgentError(code: int)
    | MalformedName(name: string)
    | NotIncreasing(name: string)
    | UnsupportedType(name: string)

  // One page, as a function of what its varbinds look like to a walk of root: the
  // rows it adds, the position after them, and whether it ends the walk.

  /** A varbind: past the subtree, or in it, with its OID and its row if they can be
      read. */
  datatype Glimpse =
    | Outside
    | Nameless(name: string)
    | Inside(name: string, oid: Oid, row: Option<Row>)

  function Look(root: string, pdu: Pdu): Glimpse {
    var name := TrimDots(pdu.name);
    if pdu.value.Absent() || !(root + "." <= name) then Outside
    else if Parse(name).None? then Nameless(name)
    else Inside(name, Parse(name).value, Normalize(pdu))
  }

  function Looks(root: string, vars: seq<Pdu>): (gs: seq<Glimpse>)
    ensures |gs| == |vars|
  {
    seq(|vars|, i requires 0 <= i < |vars| => Look(root, vars[i]))
  }

  datatype Scanned = Took(rows: seq<Row>, position: Oid, stop: bool) | Bad(error: WalkError)

  function Scan(position: Oid, gs: seq<Glimpse>): Scanned
    decreases |gs|
  {
    if gs == [] then Took([], position, false)
    else
      match gs[0]
      case Outside => Took([], position, true)
      case Nameless(name) => Bad(MalformedName(name))
      case Inside(name, oid, row) =>
        if !Less(position, oid) then Bad(NotIncreasing(name))
        else if row.None? then Bad(UnsupportedType(name))
        else Prepend([row.value], Scan(oid, gs[1..]))
  }

  function Prepend(rows: seq<Row>, s: Scanned): Scanned {
    if s.Bad? then s else s.(rows := rows + s.rows)
  }

  /** The OIDs of the rows a page adds. */
  ghost function Added(position: Oid, gs: seq<Glimpse>): seq<Oid>
    decreases |gs|
  {
    if gs == [] || !gs[0].Inside? || !Less(position, gs[0].oid) || gs[0].row.None? then []
    else [gs[0].oid] + Added(gs[0].oid, gs[1..])
  }

  /** The inner loop of Walk. */
  method TakePage(root: string, start: Oid, vars: seq<Pdu>) returns (r: Scanned)
    ensures r == Scan(start, Looks(root, vars))
  {
    var prefix := root + ".";
    var position := start;
    var rows: seq<Row> := [];
    ghost var gs := Looks(root, vars);
    WholeSlice(gs);
    for i := 0 to |vars|
      invariant Scan(start, gs) == Prepend(rows, Scan(position, gs[i..]))
    {
      var pdu := vars[i];
      SliceStep(gs, i);
      assert gs[i..][1..] == gs[i + 1..] && gs[i] == Look(root, pdu);
      if pdu.value.Absent() {
        return Took(rows, position, true);
      }
      var name := TrimDots(pdu.name);
      if !(prefix <= name) {
        return Took(rows, position, true);
      }
      var next := WalkOidInts(name);
      ParseTrimmed(name);
      if next.None? {
        return Bad(MalformedName(name));
      }
      if !Less(position, next.value) {
        return Bad(NotIncreasing(name));
      }
      position := next.value;
      var row := Normalize(pdu);
      if row.None? {
        return Bad(UnsupportedType(name));
      }
      PrependTwice(rows, [row.value], Scan(position, gs[i + 1..]));
      rows := rows + [row.value];
    }
    return Took(rows, position, false);
  }

  lemma {:induction false} ParseTrimmed(name: string)
    ensures Parse(TrimDots(name)) == Parse(name)
  {
  }

  lemma {:induction false} PrependTwice(a: seq<Row>, b: seq<Row>, s: Scanned)
    ensures Prepend(a, Prepend(b, s)) == Prepend(a + b, s)
  {
    if s.Took? {
      ConcatAssoc(a, b, s.rows);
    }
  }

  lemma {:induction false} ScanBlamesNames(position: Oid, gs: seq<Glimpse>)
    ensures var s := Scan(position, gs); s.Bad? ==> s.error != MalformedBase
    decreases |gs|
  {
    if gs != [] && gs[0].Inside? {
      ScanBlamesNames(gs[0].oid, gs[1..]);
    }
  }

  // Any agent: what a page can do to the walk.

  /** Each OID comes after every one before it. */
  ghost predicate Ascends(oids: seq<Oid>) {
    forall i, j :: 0 <= i < j < |oids| ==> Less(oids[i], oids[j])
  }

  lemma {:induction false} AscendsFurther(oids: seq<Oid>, next: Oid)
    requires Ascends(oids) && (oids != [] ==> Less(oids[|oids| - 1], next))
    ensures Ascends(oids + [next])
  {
    forall i | 0 <= i < |oids| ensures Less(oids[i], next) {
      if i < |oids| - 1 {
        LessTransitive(oids[i], oids[|oids| - 1], next);
      }
    }
  }

  ghost predicate AllBelow(base: Oid, oids: seq<Oid>) {
    forall i :: 0 <= i < |oids| ==> Below(base, oids[i])
  }

  /** A walk that has rows with these OIDs stands at `position`: its last one, or base. */
  ghost predicate Stands(base: Oid, oids: seq<Oid>, position: Oid) {
    AllBelow(base, oids) && Ascends(oids) && position == if oids == [] then base else oids[|oids| - 1]
  }

  lemma {:induction false} StandsFurther(base: Oid, oids: seq<Oid>, position: Oid, next: Oid)
    requires Stands(base, oids, position) && Below(base, next) && Less(position, next)
    ensures Stands(base, oids + [next], next)
  {
    AscendsFurther(oids, next);
  }

  /** The OIDs seen in the subtree lie below its base, and fit. */
  ghost predicate Proportioned(base: Oid, gs: seq<Glimpse>, depth: nat, width: nat) {
    forall i :: 0 <= i < |gs| && gs[i].Inside? ==> Below(base, gs[i].oid) && Fits(gs[i].oid, depth, width)
  }

  /** The page's last varbind is the walk's position. */
  ghost predicate LastIs(gs: seq<Glimpse>, position: Oid) {
    gs != [] && gs[|gs| - 1].Inside? && gs[|gs| - 1].oid == position
  }

  /** Whatever its varbinds, a page keeps the rows in order and never moves the
      position back; a page that does not end the walk moves it to its last name. */
  lemma {:induction false} ScanIsSafe(base: Oid, oids: seq<Oid>, position: Oid, gs: seq<Glimpse>, depth: nat, width: nat)
    requires Stands(base, oids, position) && Proportioned(base, gs, depth, width) && Fits(position, depth, width)
    ensures var s := Scan(position, gs);
            s.Took? ==>
              && Stands(base, oids + Added(position, gs), s.position) && Fits(s.position, depth, width)
              && (s.position == position || Less(position, s.position))
              && (!s.stop && gs != [] ==> Less(position, s.position) && LastIs(gs, s.position))
    decreases |gs|
  {
    assert oids + [] == oids;
    if gs != [] && gs[0].Inside? && gs[0].row.Some? && Less(position, gs[0].oid) {
      var next, rest := gs[0].oid, gs[1..];
      assert forall i :: 0 <= i < |rest| ==> rest[i] == gs[i + 1];
      StandsFurther(base, oids, position, next);
      ScanIsSafe(base, oids + [next], next, rest, depth, width);
      ConcatAssoc(oids, [next], Added(next, rest));
      var t := Scan(next, rest);
      if t.Took? && Less(next, t.position) {
        LessTransitive(position, next, t.position);
      }
    }
  }

  /** The OIDs that rows are named by, as `parse` reads them. */
  ghost predicate Named(parse: string -> Option<Oid>, rows: seq<Row>, oids: seq<Oid>) {
    |rows| == |oids| && forall i :: 0 <= i < |rows| ==> parse(rows[i].oid) == Some(oids[i])
  }

  /** A row carries the name its OID was read from. */
  ghost predicate Truthful(parse: string -> Option<Oid>, gs: seq<Glimpse>) {
    forall i :: 0 <= i < |gs| && gs[i].Inside? && gs[i].row.Some? ==> parse(gs[i].row.value.oid) == Some(gs[i].oid)
  }

  lemma {:induction false} NamedConcat(parse: string -> Option<Oid>, a: seq<Row>, b: seq<Row>, x: seq<Oid>, y: seq<Oid>)
    requires Named(parse, a, x) && Named(parse, b, y)
    ensures Named(parse, a + b, x + y)
  {
  }

  lemma {:induction false} ScanNames(parse: string -> Option<Oid>, position: Oid, gs: seq<Glimpse>)
    requires Truthful(parse, gs)
    ensures Scan(position, gs).Took? ==> Named(parse, Scan(position, gs).rows, Added(position, gs))
    decreases |gs|
  {
    if gs != [] && gs[0].Inside? && gs[0].row.Some? && Less(position, gs[0].oid) {
      var rest := gs[1..];
      assert forall i :: 0 <= i < |rest| ==> rest[i] == gs[i + 1];
      ScanNames(parse, gs[0].oid, rest);
      if Scan(gs[0].oid, rest).Took? {
        NamedConcat(parse, [gs[0].row.value], Scan(gs[0].oid, rest).rows, [gs[0].oid], Added(gs[0].oid, rest));
      }
    }
  }

  ghost predicate FitPage(vars: seq<Pdu>, depth: nat, width: nat) {
    forall j :: 0 <= j < |vars| && Parse(vars[j].name).Some? ==> Fits(Parse(vars[j].name).value, depth, width)
  }

  /** What a varbind seen in the subtree is. */
  lemma {:induction false} LookIsTrue(root: string, pdu: Pdu)
    requires root != "" && root[0] != '.' && Parse(root).Some?
    ensures var g := Look(root, pdu);
            g.Inside? ==>
              && Parse(pdu.name) == Some(g.oid) && Below(Parse(root).value, g.oid)
              && (g.row.Some? ==> Parse(g.row.value.oid) == Some(g.oid))
  {
    ParseTrimmed(pdu.name);
    if Look(root, pdu).Inside? {
      PrefixedIsBelow(root, TrimDots(pdu.name));
      NormalizeNames(pdu);
    }
  }

  lemma {:induction false} NormalizeNames(pdu: Pdu)
    ensures Normalize(pdu).Some? ==> Normalize(pdu).value.oid == TrimDots(pdu.name)
  {
  }

  lemma {:induction false} LooksAreTrue(root: string, vars: seq<Pdu>, depth: nat, width: nat)
    requires root != "" && root[0] != '.' && Parse(root).Some? && FitPage(vars, depth, width)
    ensures Proportioned(Parse(root).value, Looks(root, vars), depth, width) && Truthful(Parse, Looks(root, vars))
  {
    forall i | 0 <= i < |vars|
      ensures var g := Looks(root, vars)[i];
              g.Inside? ==> Below(Parse(root).value, g.oid) && Fits(g.oid, depth, width)
                            && (g.row.Some? ==> Parse(g.row.value.oid) == Some(g.oid))
    {
      LookIsTrue(root, vars[i]);
    }
  }

  // An agent that conforms: what its next page holds.

  /** Varbinds that continue the MIB from its k-th entry. */
  ghost predicate Continues(mib: Mib, k: nat, vars: seq<Pdu>)
    requires WellFormedMib(mib)
  {
    forall j :: 0 <= j < |vars| ==>
      if k + j < |mib| then vars[j] == EntryPdu(mib[k + j]) else vars[j].value.EndOfMibView?
  }

  /** A walk of base takes the k-th entry: it is below base, and base is spelt as the
      agent spells it. */
  ghost predicate Takes(mib: Mib, base: Oid, canonical: bool, k: nat) {
    k < |mib| && Below(base, mib[k].oid) && canonical
  }

  /** The k-th entry, or the end of the MIB, as a walk of base sees it. */
  ghost predicate Sees(mib: Mib, base: Oid, canonical: bool, k: nat, g: Glimpse)
    requires WellFormedMib(mib)
  {
    if Takes(mib, base, canonical, k) then g.Inside? && g.oid == mib[k].oid && g.row == Normalize(EntryPdu(mib[k]))
    else g.Outside?
  }

  ghost predicate SeesAll(mib: Mib, base: Oid, canonical: bool, k: nat, gs: seq<Glimpse>)
    requires WellFormedMib(mib)
  {
    forall j :: 0 <= j < |gs| ==> Sees(mib, base, canonical, k + j, gs[j])
  }

  lemma {:induction false} LookAtEntry(mib: Mib, root: string, k: nat)
    requires WellFormedMib(mib) && k < |mib| && root != "" && root[0] != '.' && Parse(root).Some?
    ensures Sees(mib, Parse(root).value, Canonical(root), k, Look(root, EntryPdu(mib[k])))
  {
    RenderParses(mib[k].oid);
    PrefixTest(root, mib[k].oid);
  }

  lemma {:induction false} SeesNext(mib: Mib, root: string, base: Oid, canonical: bool, k: nat, pdu: Pdu)
    requires WellFormedMib(mib) && root != "" && root[0] != '.' && Parse(root) == Some(base) && canonical == Canonical(root)
    requires if k < |mib| then pdu == EntryPdu(mib[k]) else pdu.value.EndOfMibView?
    ensures Sees(mib, base, canonical, k, Look(root, pdu))
  {
    if k < |mib| {
      LookAtEntry(mib, root, k);
    }
  }

  lemma {:induction false} LooksContinue(mib: Mib, root: string, base: Oid, canonical: bool, k: nat, vars: seq<Pdu>, gs: seq<Glimpse>)
    requires WellFormedMib(mib) && Continues(mib, k, vars) && root != "" && root[0] != '.'
    requires Parse(root) == Some(base) && canonical == Canonical(root)
    requires |gs| == |vars| && forall j :: 0 <= j < |vars| ==> gs[j] == Look(root, vars[j])
    ensures SeesAll(mib, base, canonical, k, gs)
  {
    forall j | 0 <= j < |vars| ensures Sees(mib, base, canonical, k + j, gs[j]) {
      SeesNext(mib, root, base, canonical, k + j, vars[j]);
    }
  }

  /** The walk has taken all it should of the first k entries. */
  ghost predicate InStep(mib: Mib, base: Oid, canonical: bool, rows: seq<Row>, position: Oid, k: nat) {
    && WellFormedMib(mib)
    && k == Upto(mib, position)
    && rows == RowsBelow(mib, base, k) && Supported(mib, base, k)
    && (position == base || (canonical && Less(base, position)))
  }

  /** The rows a walk of base should return. */
  ghost function Due(mib: Mib, base: Oid, canonical: bool): seq<Row>
    requires WellFormedMib(mib)
  {
    if canonical then RowsBelow(mib, base, |mib|) else []
  }

  /** Taking the next entry keeps the walk in step. */
  lemma {:induction false} StepOn(mib: Mib, base: Oid, canonical: bool, rows: seq<Row>, position: Oid, k: nat)
    requires InStep(mib, base, canonical, rows, position, k) && Takes(mib, base, canonical, k)
    ensures Less(position, mib[k].oid)
    ensures var row := Normalize(EntryPdu(mib[k]));
            if row.Some? then InStep(mib, base, canonical, rows + [row.value], mib[k].oid, k + 1)
            else !Supported(mib, base, |mib|)
  {
    UptoMember(mib, k);
    BelowIsGreater(base, mib[k].oid);
  }

  /** When the next entry is not taken, or there is none, nothing is missing. */
  lemma {:induction false} NothingMissing(mib: Mib, base: Oid, canonical: bool, rows: seq<Row>, position: Oid, k: nat)
    requires InStep(mib, base, canonical, rows, position, k) && !Takes(mib, base, canonical, k)
    ensures rows == Due(mib, base, canonical) && (canonical ==> Supported(mib, base, |mib|))
  {
    if canonical {
      if k < |mib| && position != base {
        LessTransitive(base, position, mib[k].oid);
      }
      NoneAfter(mib, base, k, |mib|);
    } else {
      NoneBefore(mib, base, k);
    }
  }

  /** What a page's outcome means for a walk of an agent that conforms: it is still
      in step, or it has ended with nothing missing, or it has met a row of a type
      the client does not decode. */
  ghost predicate Good(mib: Mib, base: Oid, canonical: bool, rows: seq<Row>, s: Scanned, k: nat) {
    && WellFormedMib(mib)
    && if s.Bad? then s.error.UnsupportedType? && canonical && !Supported(mib, base, |mib|)
       else if s.stop then
         rows + s.rows == Due(mib, base, canonical) && (canonical ==> Supported(mib, base, |mib|))
       else InStep(mib, base, canonical, rows + s.rows, s.position, k)
  }

  lemma {:induction false} GoodPrepend(mib: Mib, base: Oid, canonical: bool, rows: seq<Row>, row: Row, s: Scanned, k: nat)
    requires Good(mib, base, canonical, rows + [row], s, k)
    ensures Good(mib, base, canonical, rows, Prepend([row], s), k)
  {
    if s.Took? {
      ConcatAssoc(rows, [row], s.rows);
    }
  }

  /** A varbind that is taken leaves the rest of the page to the walk from there. */
  lemma {:induction false} ScanTakes(mib: Mib, base: Oid, canonical: bool, rows: seq<Row>, position: Oid, k: nat, gs: seq<Glimpse>)
    returns (row: Row, rest: Scanned)
    requires InStep(mib, base, canonical, rows, position, k) && Takes(mib, base, canonical, k)
    requires gs != [] && Sees(mib, base, canonical, k, gs[0]) && gs[0].row.Some?
    ensures InStep(mib, base, canonical, rows + [row], mib[k].oid, k + 1)
    ensures rest == Scan(mib[k].oid, gs[1..]) && Scan(position, gs) == Prepend([row], rest)
  {
    StepOn(mib, base, canonical, rows, position, k);
    row, rest := gs[0].row.value, Scan(mib[k].oid, gs[1..]);
  }

  /** One that is not taken, or cannot be decoded, ends the page, and the walk. */
  lemma {:induction false} ScanEnds(mib: Mib, base: Oid, canonical: bool, rows: seq<Row>, position: Oid, k: nat, gs: seq<Glimpse>)
    requires InStep(mib, base, canonical, rows, position, k)
    requires gs != [] && Sees(mib, base, canonical, k, gs[0])
    requires !(Takes(mib, base, canonical, k) && gs[0].row.Some?)
    ensures Good(mib, base, canonical, rows, Scan(position, gs), k + |gs|)
  {
    assert rows + [] == rows;
    if Takes(mib, base, canonical, k) {
      StepOn(mib, base, canonical, rows, position, k);
    } else {
      NothingMissing(mib, base, canonical, rows, position, k);
    }
  }

  lemma {:induction false} ScanConforms(mib: Mib, base: Oid, canonical: bool, rows: seq<Row>, position: Oid, k: nat, gs: seq<Glimpse>,
                                        end: nat)
    requires InStep(mib, base, canonical, rows, position, k) && SeesAll(mib, base, canonical, k, gs) && end == k + |gs|
    ensures Good(mib, base, canonical, rows, Scan(position, gs), end)
    decreases |gs|
  {
    if gs == [] {
      assert rows + [] == rows;
    } else {
      assert Sees(mib, base, canonical, k + 0, gs[0]);
      if Takes(mib, base, canonical, k) && gs[0].row.Some? {
        var row, rest := ScanTakes(mib, base, canonical, rows, position, k, gs);
        SeesRest(mib, base, canonical, k, gs);
        ScanConforms(mib, base, canonical, rows + [row], mib[k].oid, k + 1, gs[1..], end);
        GoodPrepend(mib, base, canonical, rows, row, rest, end);
      } else {
        ScanEnds(mib, base, canonical, rows, position, k, gs);
      }
    }
  }

  lemma {:induction false} SeesRest(mib: Mib, base: Oid, canonical: bool, k: nat, gs: seq<Glimpse>)
    requires WellFormedMib(mib) && SeesAll(mib, base, canonical, k, gs) && gs != []
    ensures SeesAll(mib, base, canonical, k + 1, gs[1..])
  {
    forall j | 0 <= j < |gs[1..]| ensures Sees(mib, base, canonical, k + 1 + j, gs[1..][j]) {
      assert Sees(mib, base, canonical, k + (j + 1), gs[j + 1]);
    }
  }

  // ------------------------------------------------------------------
  // The loop
  // ------------------------------------------------------------------

  /** What one response does to a walk: fail it, end it, or move it on. */
  datatype Turned =
    | Failed(error: WalkError)
    | Ended(rows: seq<Row>)
    | Moved(rows: seq<Row>, position: Oid, next: string)

  function Turn(root: string, position: Oid, response: Response): Turned {
    match response
    case NoAnswer => Failed(Transport)
    case ErrorStatus(code) => Failed(AgentError(code))
    case Page(vars) =>
      if vars == [] then Ended([])
      else
        match Scan(position, Looks(root, vars))
        case Bad(error) => Failed(error)
        case Took(rows, position', stop) =>
          if stop then Ended(rows) else Moved(rows, position', vars[|vars| - 1].name)
  }

  /** The body of Walk's loop. */
  method TakeTurn(root: string, position: Oid, response: Response) returns (r: Turned)
    ensures r == Turn(root, position, response)
  {
    if response.NoAnswer? {
      return Failed(Transport);
    }
    if response.ErrorStatus? {
      return Failed(AgentError(response.code));
    }
    if response.vars == [] {
      return Ended([]);
    }
    var page := TakePage(root, position, response.vars);
    if page.Bad? {
      return Failed(page.error);
    }
    if page.stop {
      return Ended(page.rows);
    }
    r := Moved(page.rows, page.position, response.vars[|response.vars| - 1].name);
  }

  /** Rows of the subtree, each after every one before it. */
  ghost predicate InOrder(base: Oid, rows: seq<Row>, oids: seq<Oid>) {
    Named(Parse, rows, oids) && AllBelow(base, oids) && Ascends(oids)
  }

  /** What a page that is taken does to a walk, whatever the agent. */
  ghost predicate SafePage(base: Oid, rows: seq<Row>, oids: seq<Oid>, position: Oid, s: Scanned, last: string, depth: nat, width: nat)
    requires s.Took? && width > 0
  {
    && InOrder(base, rows, oids) && Stands(base, oids, s.position) && Fits(s.position, depth, width)
    && (!s.stop ==> Parse(last) == Some(s.position) && Less(position, s.position) && Fits(position, depth, width)
                    && Place(position, depth, width) < Place(s.position, depth, width))
  }

  lemma {:induction false} LooksLast(root: string, vars: seq<Pdu>)
    requires vars != []
    ensures Looks(root, vars)[|vars| - 1] == Look(root, vars[|vars| - 1])
  {
  }

  lemma {:induction false} LastIsNamed(root: string, vars: seq<Pdu>, position: Oid)
    requires root != "" && root[0] != '.' && Parse(root).Some? && LastIs(Looks(root, vars), position)
    ensures vars != [] && Parse(vars[|vars| - 1].name) == Some(position)
  {
    LooksLast(root, vars);
    LookIsTrue(root, vars[|vars| - 1]);
  }

  lemma {:induction false} ScanKeepsOrder(base: Oid, rows: seq<Row>, oids: seq<Oid>, position: Oid, gs: seq<Glimpse>,
                                          depth: nat, width: nat)
    requires Named(Parse, rows, oids) && Stands(base, oids, position)
    requires Proportioned(base, gs, depth, width) && Truthful(Parse, gs) && Fits(position, depth, width)
    ensures var s, more := Scan(position, gs), Added(position, gs);
            s.Took? ==> InOrder(base, rows + s.rows, oids + more) && Stands(base, oids + more, s.position)
  {
    ScanIsSafe(base, oids, position, gs, depth, width);
    ScanNames(Parse, position, gs);
    if Scan(position, gs).Took? {
      NamedConcat(Parse, rows, Scan(position, gs).rows, oids, Added(position, gs));
    }
  }

  lemma {:induction false} PageIsSafe(root: string, base: Oid, rows: seq<Row>, oids: seq<Oid>, position: Oid, vars: seq<Pdu>,
                                      depth: nat, width: nat)
    returns (s: Scanned, more: seq<Oid>)
    requires root != "" && root[0] != '.' && Parse(root) == Some(base) && width > 0 && vars != []
    requires Named(Parse, rows, oids) && Stands(base, oids, position)
    requires FitPage(vars, depth, width) && Fits(position, depth, width)
    ensures s == Scan(position, Looks(root, vars))
    ensures s.Bad? ==> s.error != MalformedBase
    ensures s.Took? ==> SafePage(base, rows + s.rows, oids + more, position, s, vars[|vars| - 1].name, depth, width)
  {
    var gs := Looks(root, vars);
    s, more := Scan(position, gs), Added(position, gs);
    LooksAreTrue(root, vars, depth, width);
    ScanKeepsOrder(base, rows, oids, position, gs, depth, width);
    ScanIsSafe(base, oids, position, gs, depth, width);
    ScanBlamesNames(position, gs);
    if s.Took? && !s.stop {
      LastIsNamed(root, vars, s.position);
      PlaceIncreases(position, s.position, depth, width);
    }
  }

  /** What a turn does to a walk, whatever the agent. */
  ghost predicate SafeTurn(base: Oid, rows: seq<Row>, oids: seq<Oid>, more: seq<Oid>, position: Oid, t: Turned, depth: nat, width: nat)
    requires width > 0
  {
    match t
    case Failed(error) => error != MalformedBase
    case Ended(last) => InOrder(base, rows + last, oids + more)
    case Moved(next, position', name) =>
      && InOrder(base, rows + next, oids + more) && Stands(base, oids + more, position')
      && Parse(name) == Some(position') && Less(position, position')
      && Fits(position, depth, width) && Fits(position', depth, width)
      && Place(position, depth, width) < Place(position', depth, width)
  }

  lemma {:induction false} TurnIsSafe(root: string, base: Oid, rows: seq<Row>, oids: seq<Oid>, position: Oid,
                                      response: Response, depth: nat, width: nat)
    returns (t: Turned, more: seq<Oid>)
    requires root != "" && root[0] != '.' && Parse(root) == Some(base) && width > 0
    requires Named(Parse, rows, oids) && Stands(base, oids, position) && Fits(position, depth, width)
    requires response.Page? ==> FitPage(response.vars, depth, width)
    ensures t == Turn(root, position, response) && SafeTurn(base, rows, oids, more, position, t, depth, width)
    ensures t.Ended? || t.Moved? ==> response.Page?
    ensures t.Moved? ==> response.vars != [] && t.next == response.vars[|response.vars| - 1].name
  {
    t, more := Turn(root, position, response), [];
    assert rows + [] == rows && oids + [] == oids;
    if response.Page? && response.vars != [] {
      var s;
      s, more := PageIsSafe(root, base, rows, oids, position, response.vars, depth, width);
    }
  }

  lemma {:induction false} AnswersContinue(mib: Mib, requested: string, response: Response, position: Oid)
    requires WellFormedMib(mib) && Answers(mib, requested, response) && Parse(requested) == Some(position)
    ensures response.Page? && response.vars != [] && Continues(mib, Upto(mib, position), response.vars)
  {
  }

  lemma {:induction false} PageContinues(mib: Mib, agent: Agent, base: string, n: nat, position: Oid)
    requires Conforms(mib, agent, base) && Parse(Request(agent, base, n)) == Some(position)
    ensures agent(n).Page? && agent(n).vars != []
    ensures Continues(mib, Upto(mib, position), agent(n).vars)
  {
    assert AnswersRound(mib, agent, base, n);
    AnswersContinue(mib, Request(agent, base, n), agent(n), position);
  }

  /** What a turn does to a walk of an agent that conforms: it keeps in step, ends
      with nothing missing, or meets a type the client does not decode. */
  ghost predicate GoodTurn(mib: Mib, base: Oid, canonical: bool, rows: seq<Row>, t: Turned) {
    && WellFormedMib(mib)
    && (t.Failed? ==> t.error.UnsupportedType? && canonical && !Supported(mib, base, |mib|))
    && (t.Ended? ==> rows + t.rows == Due(mib, base, canonical) && (canonical ==> Supported(mib, base, |mib|)))
    && (t.Moved? ==> InStep(mib, base, canonical, rows + t.rows, t.position, Upto(mib, t.position)))
  }

  lemma {:induction false} TurnConforms(mib: Mib, agent: Agent, baseOid: string, n: nat, rows: seq<Row>, root: string, base: Oid, position: Oid)
    requires Conforms(mib, agent, baseOid) && Parse(Request(agent, baseOid, n)) == Some(position)
    requires root != "" && root[0] != '.' && Parse(root) == Some(base)
    requires InStep(mib, base, Canonical(root), rows, position, Upto(mib, position))
    ensures GoodTurn(mib, base, Canonical(root), rows, Turn(root, position, agent(n)))
  {
    PageContinues(mib, agent, baseOid, n, position);
    var vars := agent(n).vars;
    var k := Upto(mib, position);
    LooksContinue(mib, root, base, Canonical(root), k, vars, Looks(root, vars));
    ScanConforms(mib, base, Canonical(root), rows, position, k, Looks(root, vars), k + |vars|);
    TurnOnPage(mib, root, base, Canonical(root), rows, position, vars, k + |vars|);
  }

  lemma {:induction false} TurnOnPage(mib: Mib, root: string, base: Oid, canonical: bool, rows: seq<Row>, position: Oid, vars: seq<Pdu>, k: nat)
    requires vars != [] && Good(mib, base, canonical, rows, Scan(position, Looks(root, vars)), k)
    ensures GoodTurn(mib, base, canonical, rows, Turn(root, position, Page(vars)))
  {
  }

  lemma {:induction false} PageFits(agent: Agent, n: nat, depth: nat, width: nat)
    requires Bounded(agent, depth, width)
    ensures agent(n).Page? ==> FitPage(agent(n).vars, depth, width)
  {
  }

  /** The first n requests were answered with pages. */
  ghost predicate AllPages(agent: Agent, n: nat) {
    n == 0 || (AllPages(agent, n - 1) && agent(n - 1).Page?)
  }

  /** The requests of a walk, base and then each page's last name, with the OIDs that
      `parse` reads in them. */
  ghost predicate Climb(parse: string -> Option<Oid>, agent: Agent, base: string, requests: seq<string>, asked: seq<Oid>) {
    |requests| == |asked|
    && (requests == [] ||
        var n := |requests| - 1;
        && Climb(parse, agent, base, requests[..n], asked[..n])
        && requests[n] == Request(agent, base, n) && parse(requests[n]) == Some(asked[n]))
  }

  lemma {:induction false} ClimbAt(parse: string -> Option<Oid>, agent: Agent, base: string,
                                   requests: seq<string>, asked: seq<Oid>, i: nat)
    requires Climb(parse, agent, base, requests, asked) && i < |requests|
    ensures requests[i] == Request(agent, base, i) && parse(requests[i]) == Some(asked[i])
  {
    var n := |requests| - 1;
    if i < n {
      ClimbAt(parse, agent, base, requests[..n], asked[..n], i);
    }
  }

  lemma {:induction false} ClimbFurther(parse: string -> Option<Oid>, agent: Agent, base: string,
                                        requests: seq<string>, asked: seq<Oid>, name: string, oid: Oid)
    requires Climb(parse, agent, base, requests, asked)
    requires name == Request(agent, base, |requests|) && parse(name) == Some(oid)
    ensures Climb(parse, agent, base, requests + [name], asked + [oid])
  {
    assert (requests + [name])[..|requests|] == requests && (asked + [oid])[..|asked|] == asked;
  }

  /** A walk under way: where it stands, what it has, what it has asked. */
  ghost predicate Midway(parse: string -> Option<Oid>, agent: Agent, baseOid: string, base: Oid, depth: nat, width: nat,
                         rows: seq<Row>, oids: seq<Oid>, position: Oid, name: string, requests: seq<string>, asked: seq<Oid>) {
    && Named(parse, rows, oids) && Stands(base, oids, position) && Fits(position, depth, width)
    && parse(name) == Some(position) && name == Request(agent, baseOid, |requests|)
    && AllPages(agent, |requests|)
    && Climb(parse, agent, baseOid, requests, asked) && Ascends(asked + [position])
  }

  /** A walk stops at the first response that ends it or fails it. */
  ghost predicate Halts(agent: Agent, root: string, asked: seq<Oid>, r: Result<seq<Row>, WalkError>) {
    asked == [] ||
    var n := |asked| - 1;
    var t := Turn(root, asked[n], agent(n));
    if r.Ok? then t.Ended? else t == Failed(r.error)
  }

  lemma {:induction false} HaltsHere(agent: Agent, root: string, asked: seq<Oid>, position: Oid, t: Turned, rows: seq<Row>)
    requires t == Turn(root, position, agent(|asked|)) && AllPages(agent, |asked|)
    ensures t.Ended? ==> AllPages(agent, |asked| + 1)
    ensures t.Failed? ==> Halts(agent, root, asked + [position], Err(t.error))
    ensures t.Ended? ==> Halts(agent, root, asked + [position], Ok(rows + t.rows))
  {
  }

  /** What a walk of an agent that conforms comes to: a row for every entry below base,
      in order, if base is spelt as the agent spells it, and none if it is not; or the
      error for one of a type that is not decoded. */
  ghost predicate Exact(mib: Mib, base: Oid, canonical: bool, r: Result<seq<Row>, WalkError>)
    requires WellFormedMib(mib)
  {
    if !canonical then r == Ok([])
    else if exists i :: 0 <= i < |mib| && Below(base, mib[i].oid) && mib[i].value == Unsupported then
      r.Err? && r.error.UnsupportedType?
    else r.Ok? && Lists(mib, base, |mib|, r.value)
  }

  lemma {:induction false} DueIsExact(mib: Mib, base: Oid, canonical: bool, r: Result<seq<Row>, WalkError>)
    requires WellFormedMib(mib)
    requires if canonical && !Supported(mib, base, |mib|) then r.Err? && r.error.UnsupportedType?
             else r == Ok(Due(mib, base, canonical))
    ensures Exact(mib, base, canonical, r)
  {
    RowsList(mib, base, |mib|);
  }

  lemma {:induction false} MovesOn(parse: string -> Option<Oid>, agent: Agent, baseOid: string, base: Oid, depth: nat, width: nat,
                                   rows: seq<Row>, oids: seq<Oid>, position: Oid, name: string,
                                   requests: seq<string>, asked: seq<Oid>,
                                   rows': seq<Row>, oids': seq<Oid>, position': Oid, name': string)
    requires Midway(parse, agent, baseOid, base, depth, width, rows, oids, position, name, requests, asked)
    requires agent(|requests|).Page? && agent(|requests|).vars != []
    requires name' == agent(|requests|).vars[|agent(|requests|).vars| - 1].name
    requires Named(parse, rows', oids') && Stands(base, oids', position') && Fits(position', depth, width)
    requires parse(name') == Some(position') && Less(position, position')
    ensures Midway(parse, agent, baseOid, base, depth, width, rows', oids', position', name', requests + [name], asked + [position])
  {
    ClimbFurther(parse, agent, baseOid, requests, asked, name, position);
    AscendsFurther(asked + [position], position');
  }

  /** What a round of a walk of an agent that conforms should come to. */
  ghost predicate Rightly(mib: Mib, base: Oid, canonical: bool, rows: seq<Row>, t: Turned)
    requires WellFormedMib(mib)
  {
    match t
    case Failed(error) => Exact(mib, base, canonical, Err(error))
    case Ended(last) => Exact(mib, base, canonical, Ok(rows + last))
    case Moved(next, position', _) => InStep(mib, base, canonical, rows + next, position', Upto(mib, position'))
  }

  /** The same round, with an agent that conforms. */
  lemma {:induction false} RoundExact(agent: Agent, baseOid: string, base: Oid, mib: Mib, n: nat, rows: seq<Row>, position: Oid)
    requires Conforms(mib, agent, baseOid) && Parse(Request(agent, baseOid, n)) == Some(position)
    requires Parse(baseOid) == Some(base)
    requires InStep(mib, base, Canonical(TrimDots(baseOid)), rows, position, Upto(mib, position))
    ensures Rightly(mib, base, Canonical(TrimDots(baseOid)), rows, Turn(TrimDots(baseOid), position, agent(n)))
  {
    var canonical, t := Canonical(TrimDots(baseOid)), Turn(TrimDots(baseOid), position, agent(n));
    ParseTrimmed(baseOid);
    TurnConforms(mib, agent, baseOid, n, rows, TrimDots(baseOid), base, position);
    if t.Failed? {
      DueIsExact(mib, base, canonical, Err(t.error));
    } else if t.Ended? {
      DueIsExact(mib, base, canonical, Ok(rows + t.rows));
    }
  }

  /** One round, whatever the agent: it fails, ends, or leaves the walk under way. */
  lemma {:induction false} RoundIsSafe(agent: Agent, baseOid: string, root: string, base: Oid, depth: nat, width: nat,
                                       rows: seq<Row>, oids: seq<Oid>, position: Oid, name: string,
                                       requests: seq<string>, asked: seq<Oid>)
    returns (t: Turned, more: seq<Oid>)
    requires width > 0 && Bounded(agent, depth, width) && root != "" && root[0] != '.' && Parse(root) == Some(base)
    requires Midway(Parse, agent, baseOid, base, depth, width, rows, oids, position, name, requests, asked)
    ensures t == Turn(root, position, agent(|requests|))
    ensures Climb(Parse, agent, baseOid, requests + [name], asked + [position]) && Ascends(asked + [position])
    ensures t.Failed? ==> t.error != MalformedBase && Halts(agent, root, asked + [position], Err(t.error))
    ensures t.Ended? ==> InOrder(base, rows + t.rows, oids + more) && AllPages(agent, |requests| + 1)
                         && Halts(agent, root, asked + [position], Ok(rows + t.rows))
    ensures t.Moved? ==> Fits(position, depth, width)
                         && Midway(Parse, agent, baseOid, base, depth, width, rows + t.rows, oids + more, t.position, t.next,
                                   requests + [name], asked + [position])
                         && Place(position, depth, width) < Place(t.position, depth, width)
  {
    PageFits(agent, |requests|, depth, width);
    t, more := TurnIsSafe(root, base, rows, oids, position, agent(|requests|), depth, width);
    ClimbFurther(Parse, agent, baseOid, requests, asked, name, position);
    HaltsHere(agent, root, asked, position, t, rows);
    if t.Moved? {
      MovesOn(Parse, agent, baseOid, base, depth, width, rows, oids, position, name, requests, asked,
              rows + t.rows, oids + more, t.position, t.next);
    }
  }

  /** Walk. The depth and width bound the OIDs the agent can name, and so the number
      of times the position can increase. */
  method Walk(agent: Agent, baseOid: string, ghost mib: Mib, ghost depth: nat, ghost width: nat)
    returns (r: Result<seq<Row>, WalkError>, ghost oids: seq<Oid>, ghost requests: seq<string>, ghost asked: seq<Oid>)
    requires width > 0 && Bounded(agent, depth, width)
    requires Parse(baseOid).Some? ==> Fits(Parse(baseOid).value, depth, width)
    // Whatever the agent, a walk that succeeds returns rows of the subtree, in
    // strictly increasing order, and has passed over no failed request.
    ensures r.Ok? ==> Parse(baseOid).Some? && InOrder(Parse(baseOid).value, r.value, oids)
    ensures r.Ok? ==> AllPages(agent, |requests|)
    // It asks for base, then for ever greater OIDs, each the last name received.
    ensures Climb(Parse, agent, baseOid, requests, asked) && Ascends(asked)
    ensures Parse(baseOid).None? <==> r == Err(MalformedBase)
    ensures Parse(baseOid).None? <==> requests == []
    ensures Halts(agent, TrimDots(baseOid), asked, r)
    // Against an agent that conforms it returns everything below base, in the
    // order of the MIB, provided base is spelt as the agent spells it.
    ensures Parse(baseOid).Some? && Conforms(mib, agent, baseOid) ==>
              Exact(mib, Parse(baseOid).value, Canonical(TrimDots(baseOid)), r)
  {
    requests, asked, oids := [], [], [];
    var root := TrimDots(baseOid);
    var oid := baseOid;
    var parsed := WalkOidInts(oid);
    if parsed.None? {
      return Err(MalformedBase), oids, requests, asked;
    }
    var position := parsed.value;
    var rows: seq<Row> := [];
    var round := 0;
    ParseTrimmed(baseOid);
    if WellFormedMib(mib) {
      NoneBefore(mib, position, Upto(mib, position));
    }
    while true
      invariant round == |requests|
      invariant Midway(Parse, agent, baseOid, parsed.value, depth, width, rows, oids, position, oid, requests, asked)
      invariant Conforms(mib, agent, baseOid) ==>
                  InStep(mib, parsed.value, Canonical(root), rows, position, Upto(mib, position))
      decreases Room(depth, width) - Place(position, depth, width)
    {
      if Conforms(mib, agent, baseOid) {
        RoundExact(agent, baseOid, parsed.value, mib, round, rows, position);
      }
      ghost var t, more := RoundIsSafe(agent, baseOid, root, parsed.value, depth, width, rows, oids, position, oid, requests, asked);
      var turn := TakeTurn(root, position, agent(round));
      requests, asked := requests + [oid], asked + [position];
      round := round + 1;
      match turn {
        case Failed(error) =>
          return Err(error), oids, requests, asked;
        case Ended(last) =>
          return Ok(rows + last), oids + more, requests, asked;
        case Moved(next, position', name) =>
          rows, oids, position, oid := rows + next, oids + more, position', name;
      }
    }
  }

  // ------------------------------------------------------------------
  // A base that is not spelt as the agent spells it
  // ------------------------------------------------------------------

  /** One entry, 1.3.1 = 7. */
  const ONE_ENTRY: Mib := [Entry([1, 3, 1], Integer(7))]

  /** An agent that holds it, under some name: the entry, and after that nothing. */
  function OneEntryAgent(name: string): Agent {
    n => Page([Pdu(name, if n == 0 then Integer(7) else EndOfMibView)])
  }

  lemma {:induction false} OneEntryAfter(base: Oid)
    requires base == [1, 3] || base == [1, 3, 1]
    ensures WellFormedMib(ONE_ENTRY) && Upto(ONE_ENTRY, base) == if base == [1, 3] then 0 else 1
  {
    assert Proper([1, 3, 1]);
    assert ONE_ENTRY[0].oid == [1, 3, 1] && ONE_ENTRY[1..] == [];
    assert [1, 3][1..] == [3] && [3][1..] == [] && [1, 3, 1][1..] == [3, 1] && [3, 1][1..] == [1];
    LessTotal([1, 3, 1], [1, 3, 1]);
  }

  /** Asked for the base, it answers with the entry; asked for the entry, with the end. */
  lemma {:induction false} OneEntryConforms(base: string, name: string)
    requires Parse(base) == Some([1, 3]) && Parse(name) == Some([1, 3, 1])
    requires name == "." + Render([1, 3, 1])
    ensures Conforms(ONE_ENTRY, OneEntryAgent(name), base)
  {
    OneEntryAfter([1, 3]);
    OneEntryAfter([1, 3, 1]);
    forall n: nat ensures AnswersRound(ONE_ENTRY, OneEntryAgent(name), base, n) {
      if n == 0 {
        assert Request(OneEntryAgent(name), base, 0) == base;
      } else {
        assert Request(OneEntryAgent(name), base, n) == name;
      }
    }
  }

  lemma {:induction false} OneEntryBounded(name: string)
    requires Parse(name) == Some([1, 3, 1])
    ensures Bounded(OneEntryAgent(name), 3, 4)
  {
  }

  /** The entry is below the base. */
  lemma {:induction false} OneEntryBelow(row: Row)
    requires row == Row(Render([1, 3, 1]), "INTEGER", Number(7))
    ensures WellFormedMib(ONE_ENTRY) && Lists(ONE_ENTRY, [1, 3], 1, [row])
  {
    OneEntryAfter([1, 3]);
    assert Below([1, 3], [1, 3, 1]);
    assert [row][..0] == [] && Lists(ONE_ENTRY, [1, 3], 0, []);
  }

  /** A base that is padded with a zero: the agent conforms and holds an entry below
      it, and the walk returns none. */
  method PaddedBaseFindsNothing() returns (r: Result<seq<Row>, WalkError>)
    ensures Parse("1.03") == Some([1, 3]) && Conforms(ONE_ENTRY, OneEntryAgent("." + Render([1, 3, 1])), "1.03")
    ensures Lists(ONE_ENTRY, [1, 3], 1, [Row(Render([1, 3, 1]), "INTEGER", Number(7))])
    ensures r == Ok([])
  {
    var name := "." + Render([1, 3, 1]);
    PaddedIsNotCanonical();
    RenderParses([1, 3, 1]);
    OneEntryConforms("1.03", name);
    OneEntryBounded(name);
    OneEntryBelow(Row(Render([1, 3, 1]), "INTEGER", Number(7)));
    assert "1.03"[0] == '1' && TrimDots("1.03") == "1.03";
    ghost var oids, requests, asked;
    r, oids, requests, asked := Walk(OneEntryAgent(name), "1.03", ONE_ENTRY, 3, 4);
  }
}
