/**
 * The GnuCash 2 importer of xmlimport/gnucash.go, starting from the decoded
 * XML tree. time.Parse is a pair of caller-supplied partial functions from
 * text to instants in nanoseconds. A Go panic (which the source raises on
 * bad slot values, and a nil dereference on an unknown parent account) and
 * a parent walk that never ends are reported as Panicked results.
 */
module GnuCash {
  import opened Wrappers
  import opened Decimal
  import opened Amounts
  import L = Ledger

  type GUID = string

  /** time.Parse with the layouts "2006-01-02 15:04:05 -0700" and "2006-01-02". */
  datatype Parsers = Parsers(stamp: string -> Option<int>, date: string -> Option<int>)

  // The decoded XML tree.

  datatype TimeStamp = TimeStamp(date: string, ns: int)

  datatype SlotValue = SlotValue(typ: string, text: string, date: string, values: seq<Slot>)

  datatype Slot = Slot(key: string, value: SlotValue)

  datatype Commodity = Commodity(space: string, id: string)

  datatype Split = Split(
    id: GUID,
    account: GUID,
    memo: string,
    reconciled: string,
    reconcileDate: Option<TimeStamp>,
    value: string,
    quantity: string)

  datatype Transaction = Transaction(
    id: string,
    currency: Commodity,
    number: string,
    description: string,
    splits: seq<Split>,
    slots: seq<Slot>,
    postedDate: TimeStamp,
    enteredDate: TimeStamp)

  datatype Account = Account(name: string, id: GUID, typ: string, slots: seq<Slot>, parent: GUID)

  datatype Book = Book(id: GUID, commos: seq<Commodity>, accounts: seq<Account>, transactions: seq<Transaction>)

  datatype File = File(book: Book)

  /** A decoded slot value: what Slots.Map stores in its interface{} values. */
  datatype SlotData =
    | Integer(n: int)
    | Text(s: string)
    | Frame(m: Option<map<string, SlotData>>)   // None is a nil map
    | GDate(t: int)

  /** A run-time panic of the source. */
  datatype Panic =
    | BadInteger(text: string)          // strconv.Atoi failed
    | BadDate(text: string)             // time.Parse of a gdate failed
    | UnknownSlotType(typ: string)      // "unknown slot type: %s"
    | NilAccount(id: GUID)              // accountsById[t] is nil
    | EndlessParentChain(id: GUID)      // the walk met a cycle, on which the source loops forever

  datatype ImportError =
    | Panicked(panic: Panic)
    | AccountDescription(name: string)                  // "description of account %s is not a string"
    | TransactionFailed(id: string, cause: ImportError)  // "error in transaction %s: %s"
    | DescriptionNotString                              // "description is not a string"
    | SplitFailed(id: GUID, cause: ImportError)          // "error in split transaction %s: %s"
    | InvalidDatePosted(date: string)                   // "invalid date-posted: %s"
    | InvalidDateEntered(date: string)                  // "invalid date-entered: %s"
    | AccountMissing(account: GUID)                     // "account %s does not exist"
    | InvalidPrice(value: string)
    | InvalidReconcileDate(date: string)                // "invalid reconcile-date: %s"
    | InvalidReconciledState(state: string)             // "invalid reconciled state %q"

  /** TimeStamp.Time: the parsed date plus Ns nanoseconds; a parse failure carries the text. */
  function StampTime(s: TimeStamp, p: Parsers): (r: Result<int, string>)
    ensures r.Ok? <==> p.stamp(s.date).Some?
    ensures r.Ok? ==> r.value == p.stamp(s.date).value + s.ns
    ensures r.Err? ==> r.error == s.date
  {
    match p.stamp(s.date)
    case None => Err(s.date)
    case Some(t) => Ok(t + s.ns)
  }

  /** The value one slot decodes to, by its type tag. */
  function DecodeValue(v: SlotValue, p: Parsers): (r: Result<SlotData, Panic>)
    decreases v, 1
  {
    if v.typ == "integer" then
      (match Atoi(v.text)
       case None => Err(BadInteger(v.text))
       case Some(n) => Ok(Integer(n)))
    else if v.typ == "string" then Ok(Text(v.text))
    else if v.typ == "frame" then
      (match DecodeSlots(v.values, p)
       case Err(e) => Err(e)
       case Ok(m) => Ok(Frame(m)))
    else if v.typ == "gdate" then
      (match p.date(v.date)
       case None => Err(BadDate(v.date))
       case Some(t) => Ok(GDate(t)))
    else Err(UnknownSlotType(v.typ))
  }

  /**
   * Slots.Map: the slots decoded in order; the map is created by the first
   * slot, so no slots give a nil map; a later key overwrites an earlier one.
   */
  function DecodeSlots(s: seq<Slot>, p: Parsers): (r: Result<Option<map<string, SlotData>>, Panic>)
    ensures s == [] ==> r == Ok(None)
    ensures r.Ok? && s != [] ==> r.value.Some?
    decreases s, 0
  {
    if s == [] then Ok(None)
    else
      match DecodeSlots(s[..|s| - 1], p)
      case Err(e) => Err(e)
      case Ok(m) =>
        match DecodeValue(s[|s| - 1].value, p)
        case Err(e) => Err(e)
        case Ok(v) =>
          var base := if m.Some? then m.value else map[];
          Ok(Some(base[s[|s| - 1].key := v]))
  }

  /** Once a prefix of the slots panics, the later slots are never looked at. */
  lemma {:induction false} DecodePrefixPanics(s: seq<Slot>, j: nat, p: Parsers)
    requires j <= |s| && DecodeSlots(s[..j], p).Err?
    ensures DecodeSlots(s, p) == DecodeSlots(s[..j], p)
    decreases |s| - j
  {
    if j < |s| {
      assert s[..j + 1][..j] == s[..j];
      DecodePrefixPanics(s, j + 1, p);
    } else {
      assert s[..j] == s;
    }
  }

  /**
   * Slots.Map as the source writes it: a loop over the slots that creates
   * the map on the first slot and decodes frames by a recursive call.
   */
  method SlotsMap(s: seq<Slot>, p: Parsers) returns (r: Result<Option<map<string, SlotData>>, Panic>)
    ensures r == DecodeSlots(s, p)
    decreases s, 0
  {
    var m: Option<map<string, SlotData>> := None;
    for i := 0 to |s|
      invariant DecodeSlots(s[..i], p) == Ok(m)
    {
      assert s[..i + 1][..i] == s[..i];
      var val := s[i].value;
      var v: SlotData;
      if val.typ == "integer" {
        var n := Atoi(val.text);
        if n.None? {
          DecodePrefixPanics(s, i + 1, p);
          return Err(BadInteger(val.text));
        }
        v := Integer(n.value);
      } else if val.typ == "string" {
        v := Text(val.text);
      } else if val.typ == "frame" {
        var sub := SlotsMap(val.values, p);
        if sub.Err? {
          DecodePrefixPanics(s, i + 1, p);
          return Err(sub.error);
        }
        v := Frame(sub.value);
      } else if val.typ == "gdate" {
        var t := p.date(val.date);
        if t.None? {
          DecodePrefixPanics(s, i + 1, p);
          return Err(BadDate(val.date));
        }
        v := GDate(t.value);
      } else {
        DecodePrefixPanics(s, i + 1, p);
        return Err(UnknownSlotType(val.typ));
      }
      if m.None? {
        m := Some(map[]);
      }
      m := Some(m.value[s[i].key := v]);
    }
    assert s[..|s|] == s;
    r := Ok(m);
  }

  /** Each type tag decodes to its own variant; an unknown tag, a bad integer or a bad date panics. */
  lemma SlotTypes(v: SlotValue, p: Parsers)
    ensures v.typ == "integer" ==>
      DecodeValue(v, p) == (if Atoi(v.text).Some? then Ok(Integer(Atoi(v.text).value)) else Err(BadInteger(v.text)))
    ensures v.typ == "string" ==> DecodeValue(v, p) == Ok(Text(v.text))
    ensures v.typ == "frame" ==>
      DecodeValue(v, p) == (if DecodeSlots(v.values, p).Ok? then Ok(Frame(DecodeSlots(v.values, p).value)) else Err(DecodeSlots(v.values, p).error))
    ensures v.typ == "gdate" ==>
      DecodeValue(v, p) == (if p.date(v.date).Some? then Ok(GDate(p.date(v.date).value)) else Err(BadDate(v.date)))
    ensures v.typ !in {"integer", "string", "frame", "gdate"} ==> DecodeValue(v, p) == Err(UnknownSlotType(v.typ))
  {
  }

  /**
   * Slots.Map panics exactly when one of the slots fails to decode, and
   * the panic is the first such slot's.
   */
  lemma {:induction false} DecodeSlotsPanics(s: seq<Slot>, p: Parsers)
    ensures DecodeSlots(s, p).Err? <==> exists i :: 0 <= i < |s| && DecodeValue(s[i].value, p).Err?
    ensures DecodeSlots(s, p).Err? ==>
      exists i :: 0 <= i < |s| && DecodeValue(s[i].value, p) == Err(DecodeSlots(s, p).error) &&
        forall j :: 0 <= j < i ==> DecodeValue(s[j].value, p).Ok?
    decreases |s|
  {
    if s != [] {
      var init := s[..|s| - 1];
      DecodeSlotsPanics(init, p);
      assert forall i :: 0 <= i < |init| ==> init[i] == s[i];
      if DecodeSlots(init, p).Err? {
        var i :| 0 <= i < |init| && DecodeValue(init[i].value, p) == Err(DecodeSlots(init, p).error) &&
          forall j :: 0 <= j < i ==> DecodeValue(init[j].value, p).Ok?;
        assert DecodeValue(s[i].value, p) == Err(DecodeSlots(s, p).error);
      } else if DecodeValue(s[|s| - 1].value, p).Err? {
        assert forall j :: 0 <= j < |s| - 1 ==> DecodeValue(s[j].value, p).Ok?;
      }
    }
  }

  /** The keys of a list of slots. */
  ghost function SlotKeys(s: seq<Slot>): set<string>
  {
    set i | 0 <= i < |s| :: s[i].key
  }

  /** The map a decoded prefix left behind (empty if still nil). */
  function Current(m: Option<map<string, SlotData>>): map<string, SlotData>
  {
    if m.Some? then m.value else map[]
  }

  /** One more slot: the map so far, updated at its key. */
  lemma DecodeStep(s: seq<Slot>, p: Parsers)
    requires s != [] && DecodeSlots(s, p).Ok?
    ensures DecodeSlots(s[..|s| - 1], p).Ok? && DecodeValue(s[|s| - 1].value, p).Ok?
    ensures DecodeSlots(s, p).value ==
      Some(Current(DecodeSlots(s[..|s| - 1], p).value)[s[|s| - 1].key := DecodeValue(s[|s| - 1].value, p).value])
  {
  }

  ghost predicate AllDecode(s: seq<Slot>, p: Parsers)
  {
    forall i :: 0 <= i < |s| ==> DecodeValue(s[i].value, p).Ok?
  }

  /** m maps the key of each slot that has no later duplicate to its decoded value. */
  ghost predicate LastWins(s: seq<Slot>, m: map<string, SlotData>, p: Parsers)
    requires AllDecode(s, p)
  {
    forall i :: 0 <= i < |s| && (forall j :: i < j < |s| ==> s[j].key != s[i].key) ==>
      s[i].key in m && m[s[i].key] == DecodeValue(s[i].value, p).value
  }

  lemma LastWinsExtend(s: seq<Slot>, base: map<string, SlotData>, p: Parsers)
    requires s != [] && AllDecode(s[..|s| - 1], p) && DecodeValue(s[|s| - 1].value, p).Ok?
    requires LastWins(s[..|s| - 1], base, p)
    ensures AllDecode(s, p)
    ensures LastWins(s, base[s[|s| - 1].key := DecodeValue(s[|s| - 1].value, p).value], p)
  {
    var init := s[..|s| - 1];
    var x := s[|s| - 1];
    var m := base[x.key := DecodeValue(x.value, p).value];
    assert forall i :: 0 <= i < |init| ==> s[i] == init[i];
    assert AllDecode(s, p);
    forall i | 0 <= i < |s| && (forall j :: i < j < |s| ==> s[j].key != s[i].key)
      ensures s[i].key in m && m[s[i].key] == DecodeValue(s[i].value, p).value
    {
      if i < |init| {
        assert s[|s| - 1].key != s[i].key;
        assert forall j :: i < j < |init| ==> init[j].key != init[i].key;
      }
    }
  }

  lemma SlotKeysExtend(s: seq<Slot>)
    requires s != []
    ensures SlotKeys(s) == SlotKeys(s[..|s| - 1]) + {s[|s| - 1].key}
  {
    var init := s[..|s| - 1];
    assert forall i :: 0 <= i < |init| ==> s[i] == init[i];
  }

  /**
   * Decoded slots map every key to the value of its last slot: a later
   * duplicate key overwrites an earlier one.
   */
  lemma {:induction false} DecodeSlotsLastWins(s: seq<Slot>, p: Parsers)
    requires DecodeSlots(s, p).Ok?
    ensures AllDecode(s, p)
    ensures Current(DecodeSlots(s, p).value).Keys == SlotKeys(s)
    ensures LastWins(s, Current(DecodeSlots(s, p).value), p)
    decreases |s|
  {
    if s != [] {
      var init := s[..|s| - 1];
      var last := s[|s| - 1];
      DecodeStep(s, p);
      DecodeSlotsLastWins(init, p);
      LastWinsExtend(s, Current(DecodeSlots(init, p).value), p);
      SlotKeysExtend(s);
    }
  }

  /** The "notes" entry of decoded slots, if the map exists and has one. */
  function NotesSlot(m: Option<map<string, SlotData>>): Option<SlotData>
  {
    if m.Some? && "notes" in m.value then Some(m.value["notes"]) else None
  }

  /** The slots decode, and a "notes" entry, if there is one, is a string. */
  predicate NotesReadable(slots: seq<Slot>, p: Parsers)
  {
    DecodeSlots(slots, p).Ok? &&
    (NotesSlot(DecodeSlots(slots, p).value).None? || NotesSlot(DecodeSlots(slots, p).value).value.Text?)
  }

  /** The text of a readable "notes" entry, or "" when there is none. */
  function NotesText(slots: seq<Slot>, p: Parsers): string
    requires NotesReadable(slots, p)
  {
    var notes := NotesSlot(DecodeSlots(slots, p).value);
    if notes.Some? then notes.value.s else ""
  }

  /**
   * Account.Import: name and type are copied; a "notes" slot that is a
   * string becomes the description, any other "notes" value is an error.
   */
  function AccountImport(x: Account, p: Parsers): (r: Result<L.Account, ImportError>)
    ensures r.Err? && r.error.Panicked? <==> DecodeSlots(x.slots, p).Err?
    ensures r.Ok? ==> r.value.name == x.name && r.value.typ == x.typ
    ensures DecodeSlots(x.slots, p).Ok? ==> var notes := NotesSlot(DecodeSlots(x.slots, p).value);
      (r == Err(AccountDescription(x.name)) <==> notes.Some? && !notes.value.Text?) &&
      (r.Ok? ==> r.value.description == if notes.Some? then notes.value.s else "")
    ensures NotesReadable(x.slots, p) ==> r.Ok? && r.value.description == NotesText(x.slots, p)
  {
    match DecodeSlots(x.slots, p)
    case Err(e) => Err(Panicked(e))
    case Ok(m) =>
      var act := L.Account("", x.name, x.typ, "", 0, "", None, []);
      match NotesSlot(m)
      case None => Ok(act)
      case Some(notes) =>
        if notes.Text? then Ok(act.(description := notes.s)) else Err(AccountDescription(x.name))
  }

  /**
   * Split.Import: the account must exist; the value text is the price in
   * the form "n" or "n/d"; "y" and "n" are the reconciled states.
   */
  function SplitImport(x: Split, accts: map<GUID, L.Account>, p: Parsers): (r: Result<L.Flow, ImportError>)
    ensures r == Err(AccountMissing(x.account)) <==> x.account !in accts
    ensures r.Ok? ==> r.value.account == x.account && r.value.memo == x.memo && r.value.parent.None?
    ensures r.Ok? ==> ParseRat(x.value) == Some(r.value.price)
    ensures x.account in accts ==> (r == Err(InvalidPrice(x.value)) <==> ParseRat(x.value).None?)
  {
    if x.account !in accts then Err(AccountMissing(x.account))
    else
      match ParseRat(x.value)
      case None => Err(InvalidPrice(x.value))
      case Some(price) =>
        var flow := L.Flow("", x.memo, x.account, price, false, None, None);
        if x.reconciled == "y" then
          if x.reconcileDate.None? then Ok(flow.(reconciled := true))
          else
            match StampTime(x.reconcileDate.value, p)
            case Err(e) => Err(InvalidReconcileDate(e))
            case Ok(t) => Ok(flow.(reconciled := true, reconciledTime := Some(t)))
        else if x.reconciled == "n" then Ok(flow)
        else Err(InvalidReconciledState(x.reconciled))
  }

  /**
   * The reconciled-state switch of a split whose account exists and whose
   * value parses: "y" is reconciled, with a time only when a date is given
   * and an error when that date does not parse; "n" is not reconciled;
   * anything else is an error.
   */
  lemma ReconcileStates(x: Split, accts: map<GUID, L.Account>, p: Parsers)
    requires x.account in accts && ParseRat(x.value).Some?
    ensures x.reconciled == "y" && x.reconcileDate.None? ==>
      SplitImport(x, accts, p).Ok? && SplitImport(x, accts, p).value.reconciled &&
      SplitImport(x, accts, p).value.reconciledTime.None?
    ensures x.reconciled == "y" && x.reconcileDate.Some? ==>
      (match StampTime(x.reconcileDate.value, p)
       case Err(e) => SplitImport(x, accts, p) == Err(InvalidReconcileDate(e))
       case Ok(t) =>
         SplitImport(x, accts, p).Ok? && SplitImport(x, accts, p).value.reconciled && SplitImport(x, accts, p).value.reconciledTime == Some(t))
    ensures x.reconciled == "n" ==>
      SplitImport(x, accts, p).Ok? && !SplitImport(x, accts, p).value.reconciled &&
      SplitImport(x, accts, p).value.reconciledTime.None?
    ensures x.reconciled != "y" && x.reconciled != "n" ==>
      SplitImport(x, accts, p) == Err(InvalidReconciledState(x.reconciled))
  {
  }

  /** The splits imported in order; the first failing split stops the import. */
  function ImportSplits(splits: seq<Split>, accts: map<GUID, L.Account>, p: Parsers): Result<seq<L.Flow>, ImportError>
  {
    if splits == [] then Ok([])
    else
      match SplitImport(splits[0], accts, p)
      case Err(e) => Err(SplitFailed(splits[0].id, e))
      case Ok(f) =>
        match ImportSplits(splits[1..], accts, p)
        case Err(e) => Err(e)
        case Ok(fs) => Ok([f] + fs)
  }

  /**
   * Exactly one flow per split, in split order, when every split imports;
   * otherwise the error of the first split that does not.
   */
  lemma {:induction false} ImportSplitsSpec(splits: seq<Split>, accts: map<GUID, L.Account>, p: Parsers)
    ensures ImportSplits(splits, accts, p).Ok? <==> forall i :: 0 <= i < |splits| ==> SplitImport(splits[i], accts, p).Ok?
    ensures ImportSplits(splits, accts, p).Ok? ==>
      |ImportSplits(splits, accts, p).value| == |splits| &&
      forall i :: 0 <= i < |splits| ==> ImportSplits(splits, accts, p).value[i] == SplitImport(splits[i], accts, p).value
    ensures ImportSplits(splits, accts, p).Err? ==>
      exists i :: 0 <= i < |splits| && SplitImport(splits[i], accts, p).Err? &&
        (forall j :: 0 <= j < i ==> SplitImport(splits[j], accts, p).Ok?) &&
        ImportSplits(splits, accts, p).error == SplitFailed(splits[i].id, SplitImport(splits[i], accts, p).error)
  {
    if splits != [] {
      ImportSplitsSpec(splits[1..], accts, p);
      assert forall i :: 0 < i < |splits| ==> splits[i] == splits[1..][i - 1];
      if SplitImport(splits[0], accts, p).Ok? && ImportSplits(splits[1..], accts, p).Err? {
        var i :| 0 <= i < |splits[1..]| && SplitImport(splits[1..][i], accts, p).Err? &&
          (forall j :: 0 <= j < i ==> SplitImport(splits[1..][j], accts, p).Ok?) &&
          ImportSplits(splits[1..], accts, p).error == SplitFailed(splits[1..][i].id, SplitImport(splits[1..][i], accts, p).error);
        assert SplitImport(splits[i + 1], accts, p).Err?;
      }
    }
  }

  /**
   * Transaction.Import: description and number are copied, a string
   * "notes" slot becomes the notes, the splits become the flows, and the
   * posted and entered time stamps become Date and Stamp, in that order of
   * checking.
   */
  function TransactionImported(x: Transaction, accts: map<GUID, L.Account>, p: Parsers): (r: Result<L.Transaction, ImportError>)
  {
    match DecodeSlots(x.slots, p)
    case Err(e) => Err(Panicked(e))
    case Ok(m) =>
      if NotesSlot(m).Some? && !NotesSlot(m).value.Text? then Err(DescriptionNotString)
      else
        var notes := if NotesSlot(m).Some? then NotesSlot(m).value.s else "";
        match ImportSplits(x.splits, accts, p)
        case Err(e) => Err(e)
        case Ok(flows) =>
          match StampTime(x.postedDate, p)
          case Err(e) => Err(InvalidDatePosted(e))
          case Ok(date) =>
            match StampTime(x.enteredDate, p)
            case Err(e) => Err(InvalidDateEntered(e))
            case Ok(stamp) => Ok(L.Transaction("", date, stamp, x.description, notes, x.number, flows))
  }

  /**
   * The order in which Transaction.Import reports failures: slots, notes,
   * the first failing split (before any date is parsed), date-posted, then
   * date-entered; on success one flow per split, in order, with the notes,
   * description and number of the transaction.
   */
  lemma TransactionImportSpec(x: Transaction, accts: map<GUID, L.Account>, p: Parsers)
    ensures DecodeSlots(x.slots, p).Err? ==>
      TransactionImported(x, accts, p) == Err(Panicked(DecodeSlots(x.slots, p).error))
    ensures DecodeSlots(x.slots, p).Ok? && !NotesReadable(x.slots, p) ==>
      TransactionImported(x, accts, p) == Err(DescriptionNotString)
    ensures NotesReadable(x.slots, p) && (exists i :: 0 <= i < |x.splits| && SplitImport(x.splits[i], accts, p).Err?) ==>
      ImportSplits(x.splits, accts, p).Err? &&
      TransactionImported(x, accts, p) == Err(ImportSplits(x.splits, accts, p).error)
    ensures NotesReadable(x.slots, p) && (forall i :: 0 <= i < |x.splits| ==> SplitImport(x.splits[i], accts, p).Ok?) ==>
      (StampTime(x.postedDate, p).Err? ==> TransactionImported(x, accts, p) == Err(InvalidDatePosted(x.postedDate.date))) &&
      (StampTime(x.postedDate, p).Ok? && StampTime(x.enteredDate, p).Err? ==>
        TransactionImported(x, accts, p) == Err(InvalidDateEntered(x.enteredDate.date))) &&
      (StampTime(x.postedDate, p).Ok? && StampTime(x.enteredDate, p).Ok? ==>
        TransactionImported(x, accts, p).Ok? &&
        |TransactionImported(x, accts, p).value.flows| == |x.splits| &&
        (forall i :: 0 <= i < |x.splits| ==> TransactionImported(x, accts, p).value.flows[i] == SplitImport(x.splits[i], accts, p).value) &&
        TransactionImported(x, accts, p).value.date == StampTime(x.postedDate, p).value &&
        TransactionImported(x, accts, p).value.stamp == StampTime(x.enteredDate, p).value &&
        TransactionImported(x, accts, p).value.notes == NotesText(x.slots, p) &&
        TransactionImported(x, accts, p).value.description == x.description &&
        TransactionImported(x, accts, p).value.number == x.number)
  {
    ImportSplitsSpec(x.splits, accts, p);
  }

  /** A zero-valued flow, as make([]Flow, n) holds before the loop fills it. */
  const ZeroFlow: L.Flow := L.Flow("", "", "", Zero, false, None, None)

  /** Transaction.Import as the source writes it: the flows are filled in by index. */
  method TransactionImport(x: Transaction, accts: map<GUID, L.Account>, p: Parsers) returns (r: Result<L.Transaction, ImportError>)
    ensures r == TransactionImported(x, accts, p)
  {
    var slots := SlotsMap(x.slots, p);
    if slots.Err? {
      return Err(Panicked(slots.error));
    }
    var notes := "";
    var n := NotesSlot(slots.value);
    if n.Some? {
      if n.value.Text? {
        notes := n.value.s;
      } else {
        return Err(DescriptionNotString);
      }
    }
    ImportSplitsSpec(x.splits, accts, p);
    var flows := seq(|x.splits|, _ => ZeroFlow);
    for i := 0 to |x.splits|
      invariant |flows| == |x.splits|
      invariant forall j :: 0 <= j < i ==> SplitImport(x.splits[j], accts, p).Ok?
      invariant forall j :: 0 <= j < i ==> flows[j] == SplitImport(x.splits[j], accts, p).value
    {
      var f := SplitImport(x.splits[i], accts, p);
      if f.Err? {
        return Err(SplitFailed(x.splits[i].id, f.error));
      }
      flows := flows[i := f.value];
    }
    assert flows == ImportSplits(x.splits, accts, p).value;
    var date := StampTime(x.postedDate, p);
    if date.Err? {
      return Err(InvalidDatePosted(date.error));
    }
    var stamp := StampTime(x.enteredDate, p);
    if stamp.Err? {
      return Err(InvalidDateEntered(stamp.error));
    }
    r := Ok(L.Transaction("", date.value, stamp.value, x.description, notes, x.number, flows));
  }

  // File.Import.

  /**
   * A loop that imports the elements of xs in order into a map under their
   * keys: the first failure stops it and is returned with its element; a
   * later element with the same key overwrites an earlier one.
   */
  function Collect<X, K, V, E>(xs: seq<X>, key: X -> K, f: X -> Result<V, E>): Result<map<K, V>, (X, E)>
  {
    if xs == [] then Ok(map[])
    else
      match Collect(xs[..|xs| - 1], key, f)
      case Err(e) => Err(e)
      case Ok(m) =>
        match f(xs[|xs| - 1])
        case Err(e) => Err((xs[|xs| - 1], e))
        case Ok(v) => Ok(m[key(xs[|xs| - 1]) := v])
  }

  lemma {:induction false} CollectPrefixFails<X, K, V, E>(xs: seq<X>, j: nat, key: X -> K, f: X -> Result<V, E>)
    requires j <= |xs| && Collect(xs[..j], key, f).Err?
    ensures Collect(xs, key, f) == Collect(xs[..j], key, f)
    decreases |xs| - j
  {
    if j < |xs| {
      assert xs[..j + 1][..j] == xs[..j];
      CollectPrefixFails(xs, j + 1, key, f);
    } else {
      assert xs[..j] == xs;
    }
  }

  /** Collect fails exactly when some element fails, and then with the first failure. */
  lemma {:induction false} CollectFails<X, K, V, E>(xs: seq<X>, key: X -> K, f: X -> Result<V, E>)
    ensures Collect(xs, key, f).Ok? <==> forall i :: 0 <= i < |xs| ==> f(xs[i]).Ok?
    ensures Collect(xs, key, f).Err? ==>
      exists i :: 0 <= i < |xs| && f(xs[i]).Err? && (forall j :: 0 <= j < i ==> f(xs[j]).Ok?) &&
        Collect(xs, key, f).error == (xs[i], f(xs[i]).error)
    decreases |xs|
  {
    if xs != [] {
      var init := xs[..|xs| - 1];
      CollectFails(init, key, f);
      assert forall i :: 0 <= i < |init| ==> init[i] == xs[i];
      if Collect(init, key, f).Err? {
        var i :| 0 <= i < |init| && f(init[i]).Err? && (forall j :: 0 <= j < i ==> f(init[j]).Ok?) &&
          Collect(init, key, f).error == (init[i], f(init[i]).error);
        assert f(xs[i]).Err?;
      } else if f(xs[|xs| - 1]).Err? {
        assert forall j :: 0 <= j < |xs| - 1 ==> f(xs[j]).Ok?;
      }
    }
  }

  ghost function KeysOf<X, K>(xs: seq<X>, key: X -> K): set<K>
  {
    set i | 0 <= i < |xs| :: key(xs[i])
  }

  /** xs[i] is the last element of xs with its key. */
  ghost predicate IsLast<X, K>(xs: seq<X>, key: X -> K, i: int)
    requires 0 <= i < |xs|
  {
    forall j :: i < j < |xs| ==> key(xs[j]) != key(xs[i])
  }

  ghost predicate LastValues<X, K, V, E>(xs: seq<X>, key: X -> K, f: X -> Result<V, E>, m: map<K, V>)
  {
    forall i :: 0 <= i < |xs| && IsLast(xs, key, i) ==>
      key(xs[i]) in m && f(xs[i]).Ok? && m[key(xs[i])] == f(xs[i]).value
  }

  lemma LastValuesExtend<X, K, V, E>(xs: seq<X>, key: X -> K, f: X -> Result<V, E>, m: map<K, V>)
    requires xs != [] && f(xs[|xs| - 1]).Ok? && LastValues(xs[..|xs| - 1], key, f, m)
    ensures LastValues(xs, key, f, m[key(xs[|xs| - 1]) := f(xs[|xs| - 1]).value])
    ensures KeysOf(xs, key) == KeysOf(xs[..|xs| - 1], key) + {key(xs[|xs| - 1])}
  {
    var init := xs[..|xs| - 1];
    assert forall i :: 0 <= i < |init| ==> xs[i] == init[i];
    forall i | 0 <= i < |init| && IsLast(xs, key, i)
      ensures IsLast(init, key, i)
    {
      assert forall j :: i < j < |init| ==> init[j] == xs[j];
    }
  }

  /** A successful Collect holds every key once, with the value of its last element. */
  lemma {:induction false} CollectLastWins<X, K, V, E>(xs: seq<X>, key: X -> K, f: X -> Result<V, E>)
    requires Collect(xs, key, f).Ok?
    ensures Collect(xs, key, f).value.Keys == KeysOf(xs, key)
    ensures LastValues(xs, key, f, Collect(xs, key, f).value)
    decreases |xs|
  {
    if xs != [] {
      var init := xs[..|xs| - 1];
      CollectLastWins(init, key, f);
      LastValuesExtend(xs, key, f, Collect(init, key, f).value);
    }
  }

  function AccountId(x: Account): GUID
  {
    x.id
  }

  function AccountStep(p: Parsers): Account -> Result<L.Account, ImportError>
  {
    (x: Account) => AccountImport(x, p)
  }

  function ParentStep(x: Account): Result<GUID, ImportError>
  {
    Ok(x.parent)
  }

  /** Go's parents[t]: the empty id for an unknown key. */
  function ParentOf(parents: map<GUID, GUID>, t: GUID): GUID
  {
    if t in parents then parents[t] else ""
  }

  /**
   * The name-resolution loop of File.Import: walks up from t, prefixing
   * each ancestor's (unresolved) name and a "/". A missing ancestor is the
   * nil dereference, and a walk longer than there are accounts is a cycle
   * on which the source loops forever.
   */
  function WalkUp(byId: map<GUID, L.Account>, parents: map<GUID, GUID>, t: GUID, name: string, fuel: nat): (r: Result<string, ImportError>)
    ensures r.Err? ==> r.error.Panicked?
    decreases fuel
  {
    if t == "" then Ok(name)
    else if t !in byId then Err(Panicked(NilAccount(t)))
    else if fuel == 0 then Err(Panicked(EndlessParentChain(t)))
    else WalkUp(byId, parents, ParentOf(parents, t), byId[t].name + "/" + name, fuel - 1)
  }

  /** The ancestors of t up to the root, root-most first and t last. */
  function Ancestors(byId: map<GUID, L.Account>, parents: map<GUID, GUID>, t: GUID, fuel: nat): (c: Option<seq<GUID>>)
    ensures c.Some? ==> forall u :: u in c.value ==> u in byId
    decreases fuel
  {
    if t == "" then Some([])
    else if t !in byId || fuel == 0 then None
    else
      match Ancestors(byId, parents, ParentOf(parents, t), fuel - 1)
      case None => None
      case Some(c) => Some(c + [t])
  }

  /** The names of the accounts c, each followed by "/". */
  function Slashed(byId: map<GUID, L.Account>, c: seq<GUID>): string
    requires forall u :: u in c ==> u in byId
  {
    if c == [] then "" else Slashed(byId, c[..|c| - 1]) + byId[c[|c| - 1]].name + "/"
  }

  /**
   * Ancestors is a parent chain: it starts at a root (an account with no
   * parent), each entry is the parent of the next, and it ends at t.
   */
  lemma {:induction false} AncestorsChain(byId: map<GUID, L.Account>, parents: map<GUID, GUID>, t: GUID, fuel: nat)
    requires Ancestors(byId, parents, t, fuel).Some?
    ensures var c := Ancestors(byId, parents, t, fuel).value;
      (c == [] <==> t == "") &&
      (c != [] ==>
        c[|c| - 1] == t && ParentOf(parents, c[0]) == "" &&
        forall i :: 0 <= i < |c| - 1 ==> ParentOf(parents, c[i + 1]) == c[i])
    decreases fuel
  {
    if t != "" {
      var up := ParentOf(parents, t);
      AncestorsChain(byId, parents, up, fuel - 1);
      var c' := Ancestors(byId, parents, up, fuel - 1).value;
      var c := c' + [t];
      if c' != [] {
        assert forall i :: 0 <= i < |c'| ==> c[i] == c'[i];
      }
    }
  }

  /**
   * The resolved name is the names of the ancestors, root-most first, then
   * the account's own name, joined by "/"; the walk succeeds exactly when
   * the chain of ancestors does.
   */
  lemma {:induction false} WalkUpIsPath(byId: map<GUID, L.Account>, parents: map<GUID, GUID>, t: GUID, name: string, fuel: nat)
    ensures WalkUp(byId, parents, t, name, fuel).Ok? <==> Ancestors(byId, parents, t, fuel).Some?
    ensures WalkUp(byId, parents, t, name, fuel).Ok? ==>
      WalkUp(byId, parents, t, name, fuel).value == Slashed(byId, Ancestors(byId, parents, t, fuel).value) + name
    decreases fuel
  {
    if t != "" && t in byId && fuel > 0 {
      var up := ParentOf(parents, t);
      var longer := byId[t].name + "/" + name;
      WalkUpIsPath(byId, parents, up, longer, fuel - 1);
      if Ancestors(byId, parents, up, fuel - 1).Some? {
        var c' := Ancestors(byId, parents, up, fuel - 1).value;
        assert (c' + [t])[..|c' + [t]| - 1] == c';
        assert Slashed(byId, c' + [t]) + name == Slashed(byId, c') + longer;
      }
    }
  }

  /** Where the walk t = parents[t] stands after n steps. */
  function Up(parents: map<GUID, GUID>, t: GUID, n: nat): GUID
    decreases n
  {
    if n == 0 then t else Up(parents, ParentOf(parents, t), n - 1)
  }

  /** The first n positions of the walk from t. */
  function Chain(parents: map<GUID, GUID>, t: GUID, n: nat): (c: seq<GUID>)
    ensures |c| == n
    decreases n
  {
    if n == 0 then [] else [t] + Chain(parents, ParentOf(parents, t), n - 1)
  }

  lemma {:induction false} ChainIsWalk(parents: map<GUID, GUID>, t: GUID, n: nat)
    ensures forall i :: 0 <= i < n ==> Chain(parents, t, n)[i] == Up(parents, t, i)
    decreases n
  {
    if n > 0 {
      ChainIsWalk(parents, ParentOf(parents, t), n - 1);
      forall i | 0 < i < n
        ensures Chain(parents, t, n)[i] == Up(parents, t, i)
      {
        assert Chain(parents, t, n)[i] == Chain(parents, ParentOf(parents, t), n - 1)[i - 1];
      }
    }
  }

  /** A walk that runs out of fuel met an account at each of its first fuel + 1 positions. */
  lemma {:induction false} EndlessWalkPresent(byId: map<GUID, L.Account>, parents: map<GUID, GUID>, t: GUID, name: string, fuel: nat)
    requires WalkUp(byId, parents, t, name, fuel).Err? && WalkUp(byId, parents, t, name, fuel).error.panic.EndlessParentChain?
    ensures forall u :: u in Chain(parents, t, fuel + 1) ==> u in byId
    decreases fuel
  {
    if fuel > 0 {
      EndlessWalkPresent(byId, parents, ParentOf(parents, t), byId[t].name + "/" + name, fuel - 1);
    }
  }

  /** Pigeonhole: distinct elements of a set are no more than the set has. */
  lemma {:induction false} DistinctWithin(c: seq<GUID>, S: set<GUID>)
    requires forall i, j :: 0 <= i < j < |c| ==> c[i] != c[j]
    requires forall u :: u in c ==> u in S
    ensures |c| <= |S|
  {
    if c != [] {
      var x := c[|c| - 1];
      var init := c[..|c| - 1];
      assert forall u :: u in init ==> u in S - {x} by {
        forall u | u in init ensures u in S - {x} {
          var k :| 0 <= k < |init| && init[k] == u;
          assert c[k] == u;
        }
      }
      DistinctWithin(init, S - {x});
    }
  }

  /**
   * The endless-chain failure means what it says: within as many steps as
   * there are accounts, the walk from t came back to an account it had
   * already visited, so the walk of the source never reaches a root.
   */
  lemma EndlessChainIsCycle(byId: map<GUID, L.Account>, parents: map<GUID, GUID>, t: GUID, name: string)
    requires WalkUp(byId, parents, t, name, |byId|).Err?
    requires WalkUp(byId, parents, t, name, |byId|).error.panic.EndlessParentChain?
    ensures exists i, j :: 0 <= i < j <= |byId| && Up(parents, t, i) in byId && Up(parents, t, i) == Up(parents, t, j)
  {
    var c := Chain(parents, t, |byId| + 1);
    EndlessWalkPresent(byId, parents, t, name, |byId|);
    ChainIsWalk(parents, t, |byId| + 1);
    if forall i, j :: 0 <= i < j < |c| ==> c[i] != c[j] {
      DistinctWithin(c, byId.Keys);
      assert false;
    }
    var i, j :| 0 <= i < j < |c| && c[i] == c[j];
    assert c[i] in c;
  }

  /**
   * The loop as the source writes it, on an account that is its own parent:
   * t stays that account at every step, so the condition t != "" never
   * turns false and File.Import never returns.
   */
  lemma {:induction false} SelfParentNeverEnds(parents: map<GUID, GUID>, t: GUID, n: nat)
    requires t != "" && ParentOf(parents, t) == t
    ensures Up(parents, t, n) == t
    decreases n
  {
    if n > 0 {
      SelfParentNeverEnds(parents, t, n - 1);
    }
  }

  /** The bounded walk of this model reports the same account as an endless chain instead. */
  lemma {:induction false} SelfParentReported(byId: map<GUID, L.Account>, parents: map<GUID, GUID>, t: GUID, name: string, fuel: nat)
    requires t != "" && t in byId && ParentOf(parents, t) == t
    ensures WalkUp(byId, parents, t, name, fuel) == Err(Panicked(EndlessParentChain(t)))
    decreases fuel
  {
    if fuel > 0 {
      SelfParentReported(byId, parents, t, byId[t].name + "/" + name, fuel - 1);
    }
  }

  /** An account without a parent keeps its own name. */
  lemma RootKeepsName(byId: map<GUID, L.Account>, parents: map<GUID, GUID>, name: string, fuel: nat)
    ensures WalkUp(byId, parents, "", name, fuel) == Ok(name)
  {
  }

  function NameStep(byId: map<GUID, L.Account>, parents: map<GUID, GUID>): Account -> Result<string, ImportError>
  {
    (x: Account) => WalkUp(byId, parents, x.parent, x.name, |byId|)
  }

  /** Every account of byId renamed to its resolved name. */
  function Renamed(byId: map<GUID, L.Account>, names: map<GUID, string>): (r: map<GUID, L.Account>)
    ensures r.Keys == byId.Keys
    ensures forall g :: g in r ==> r[g] == if g in names then byId[g].(name := names[g]) else byId[g]
  {
    map g | g in byId :: if g in names then byId[g].(name := names[g]) else byId[g]
  }

  function TransactionId(x: Transaction): string
  {
    x.id
  }

  function TransactionStep(accts: map<GUID, L.Account>, p: Parsers): Transaction -> Result<L.Transaction, ImportError>
  {
    (x: Transaction) => TransactionImported(x, accts, p)
  }

  /** "error in transaction %s: %s"; a panic is not an error value and is passed on. */
  function Wrap(id: string, e: ImportError): ImportError
  {
    if e.Panicked? then e else TransactionFailed(id, e)
  }

  /** The book File.Import returns, with maps keyed by the XML ids. */
  datatype Imported = Imported(accounts: map<GUID, L.Account>, transactions: map<string, L.Transaction>)

  /** The first loop of File.Import: accountsById. */
  function AccountsById(file: File, p: Parsers): Result<map<GUID, L.Account>, (Account, ImportError)>
  {
    Collect(file.book.accounts, AccountId, AccountStep(p))
  }

  /** The parents map filled by the same loop. */
  function ParentsOf(file: File): map<GUID, GUID>
  {
    CollectFails(file.book.accounts, AccountId, ParentStep);
    Collect(file.book.accounts, AccountId, ParentStep).value
  }

  /** The second loop: actNames. */
  function ActNames(file: File, p: Parsers): Result<map<GUID, string>, (Account, ImportError)>
    requires AccountsById(file, p).Ok?
  {
    Collect(file.book.accounts, AccountId, NameStep(AccountsById(file, p).value, ParentsOf(file)))
  }

  /** The third loop: every account renamed. */
  function RenamedAccounts(file: File, p: Parsers): map<GUID, L.Account>
    requires AccountsById(file, p).Ok? && ActNames(file, p).Ok?
  {
    Renamed(AccountsById(file, p).value, ActNames(file, p).value)
  }

  /** The last loop: the transactions. */
  function Transactions(file: File, p: Parsers): Result<map<string, L.Transaction>, (Transaction, ImportError)>
    requires AccountsById(file, p).Ok? && ActNames(file, p).Ok?
  {
    Collect(file.book.transactions, TransactionId, TransactionStep(RenamedAccounts(file, p), p))
  }

  /**
   * File.Import: import every account, resolve every account's name by its
   * parent chain, then import every transaction. The first failure, in
   * that order, is the result.
   */
  function FileImported(file: File, p: Parsers): Result<Imported, ImportError>
  {
    match AccountsById(file, p)
    case Err(e) => Err(e.1)
    case Ok(_) =>
      match ActNames(file, p)
      case Err(e) => Err(e.1)
      case Ok(_) =>
        match Transactions(file, p)
        case Err(e) => Err(Wrap(e.0.id, e.1))
        case Ok(txs) => Ok(Imported(RenamedAccounts(file, p), txs))
  }

  /**
   * All or nothing: File.Import succeeds exactly when every account
   * imports, every account's name resolves and every transaction imports.
   */
  lemma ImportAllOrNothing(file: File, p: Parsers)
    ensures AccountsById(file, p).Ok? <==>
      forall i :: 0 <= i < |file.book.accounts| ==> AccountImport(file.book.accounts[i], p).Ok?
    ensures AccountsById(file, p).Ok? ==>
      (ActNames(file, p).Ok? <==>
        forall i :: 0 <= i < |file.book.accounts| ==>
          WalkUp(AccountsById(file, p).value, ParentsOf(file), file.book.accounts[i].parent,
                 file.book.accounts[i].name, |AccountsById(file, p).value|).Ok?)
    ensures AccountsById(file, p).Ok? && ActNames(file, p).Ok? ==>
      (Transactions(file, p).Ok? <==>
        forall j :: 0 <= j < |file.book.transactions| ==>
          TransactionImported(file.book.transactions[j], RenamedAccounts(file, p), p).Ok?)
    ensures FileImported(file, p).Ok? <==>
      AccountsById(file, p).Ok? && ActNames(file, p).Ok? && Transactions(file, p).Ok?
  {
    var xs := file.book.accounts;
    CollectFails(xs, AccountId, AccountStep(p));
    if AccountsById(file, p).Ok? {
      CollectFails(xs, AccountId, NameStep(AccountsById(file, p).value, ParentsOf(file)));
      if ActNames(file, p).Ok? {
        CollectFails(file.book.transactions, TransactionId, TransactionStep(RenamedAccounts(file, p), p));
      }
    }
  }

  /** Failures come out in order: the first account that fails to import decides the error. */
  lemma ImportFirstAccountError(file: File, p: Parsers, i: nat)
    requires i < |file.book.accounts| && AccountImport(file.book.accounts[i], p).Err?
    requires forall j :: 0 <= j < i ==> AccountImport(file.book.accounts[j], p).Ok?
    ensures FileImported(file, p) == Err(AccountImport(file.book.accounts[i], p).error)
  {
    var xs := file.book.accounts;
    CollectFails(xs, AccountId, AccountStep(p));
    var k :| 0 <= k < |xs| && AccountImport(xs[k], p).Err? && (forall j :: 0 <= j < k ==> AccountImport(xs[j], p).Ok?) &&
      AccountsById(file, p).error == (xs[k], AccountImport(xs[k], p).error);
    assert k == i;
  }

  /**
   * Every account of a successful import is there under its id, with the
   * imported fields of the last account with that id and the resolved
   * name: the original names of its ancestors root-most first, then its
   * own, joined by "/".
   */
  lemma ImportedAccounts(file: File, p: Parsers)
    requires AccountsById(file, p).Ok? && ActNames(file, p).Ok?
    ensures RenamedAccounts(file, p).Keys == KeysOf(file.book.accounts, AccountId)
    ensures forall i :: 0 <= i < |file.book.accounts| && IsLast(file.book.accounts, AccountId, i) ==>
      var x := file.book.accounts[i];
      var byId := AccountsById(file, p).value;
      AccountImport(x, p).Ok? && Ancestors(byId, ParentsOf(file), x.parent, |byId|).Some? &&
      RenamedAccounts(file, p)[x.id] ==
        AccountImport(x, p).value.(name := Slashed(byId, Ancestors(byId, ParentsOf(file), x.parent, |byId|).value) + x.name)
  {
    var xs := file.book.accounts;
    var byId := AccountsById(file, p).value;
    var parents := ParentsOf(file);
    CollectFails(xs, AccountId, AccountStep(p));
    CollectFails(xs, AccountId, NameStep(byId, parents));
    CollectLastWins(xs, AccountId, AccountStep(p));
    CollectLastWins(xs, AccountId, NameStep(byId, parents));
    forall i | 0 <= i < |xs| && IsLast(xs, AccountId, i)
      ensures AccountImport(xs[i], p).Ok? && Ancestors(byId, parents, xs[i].parent, |byId|).Some?
      ensures RenamedAccounts(file, p)[xs[i].id] ==
        AccountImport(xs[i], p).value.(name := Slashed(byId, Ancestors(byId, parents, xs[i].parent, |byId|).value) + xs[i].name)
    {
      WalkUpIsPath(byId, parents, xs[i].parent, xs[i].name, |byId|);
    }
  }

  /** Every transaction of a successful import is there under its id, imported against the renamed accounts. */
  lemma ImportedTransactions(file: File, p: Parsers)
    requires FileImported(file, p).Ok?
    ensures FileImported(file, p).value.transactions.Keys == KeysOf(file.book.transactions, TransactionId)
    ensures forall j :: 0 <= j < |file.book.transactions| && IsLast(file.book.transactions, TransactionId, j) ==>
      TransactionImported(file.book.transactions[j], FileImported(file, p).value.accounts, p).Ok? &&
      FileImported(file, p).value.transactions[file.book.transactions[j].id] ==
        TransactionImported(file.book.transactions[j], FileImported(file, p).value.accounts, p).value
  {
    CollectLastWins(file.book.transactions, TransactionId, TransactionStep(RenamedAccounts(file, p), p));
  }

  /** The first loop of File.Import. */
  method ImportAccounts(xs: seq<Account>, p: Parsers) returns (r: Result<map<GUID, L.Account>, (Account, ImportError)>, parents: map<GUID, GUID>)
    ensures r == Collect(xs, AccountId, AccountStep(p))
    ensures r.Ok? ==> Collect(xs, AccountId, ParentStep) == Ok(parents)
  {
    var accountsById: map<GUID, L.Account> := map[];
    parents := map[];
    for i := 0 to |xs|
      invariant Collect(xs[..i], AccountId, AccountStep(p)) == Ok(accountsById)
      invariant Collect(xs[..i], AccountId, ParentStep) == Ok(parents)
    {
      assert xs[..i + 1][..i] == xs[..i];
      var act := AccountImport(xs[i], p);
      if act.Err? {
        CollectPrefixFails(xs, i + 1, AccountId, AccountStep(p));
        return Err((xs[i], act.error)), parents;
      }
      accountsById := accountsById[xs[i].id := act.value];
      parents := parents[xs[i].id := xs[i].parent];
    }
    assert xs[..|xs|] == xs;
    r := Ok(accountsById);
  }

  /** The walk up the parent chain of one account (the inner loop). */
  method ResolveName(x: Account, accountsById: map<GUID, L.Account>, parents: map<GUID, GUID>) returns (r: Result<string, ImportError>)
    ensures r == NameStep(accountsById, parents)(x)
  {
    var name := x.name;
    var t := x.parent;
    var fuel: nat := |accountsById|;
    while t != ""
      invariant WalkUp(accountsById, parents, t, name, fuel) == WalkUp(accountsById, parents, x.parent, x.name, |accountsById|)
      decreases fuel
    {
      if t !in accountsById {
        return Err(Panicked(NilAccount(t)));
      }
      if fuel == 0 {
        return Err(Panicked(EndlessParentChain(t)));
      }
      name := accountsById[t].name + "/" + name;
      t := ParentOf(parents, t);
      fuel := fuel - 1;
    }
    r := Ok(name);
  }

  /** The second loop of File.Import. */
  method ResolveNames(xs: seq<Account>, accountsById: map<GUID, L.Account>, parents: map<GUID, GUID>) returns (r: Result<map<GUID, string>, (Account, ImportError)>)
    ensures r == Collect(xs, AccountId, NameStep(accountsById, parents))
  {
    var actNames: map<GUID, string> := map[];
    for i := 0 to |xs|
      invariant Collect(xs[..i], AccountId, NameStep(accountsById, parents)) == Ok(actNames)
    {
      assert xs[..i + 1][..i] == xs[..i];
      var name := ResolveName(xs[i], accountsById, parents);
      if name.Err? {
        CollectPrefixFails(xs, i + 1, AccountId, NameStep(accountsById, parents));
        return Err((xs[i], name.error));
      }
      actNames := actNames[xs[i].id := name.value];
    }
    assert xs[..|xs|] == xs;
    r := Ok(actNames);
  }

  /** The third loop of File.Import: accountsById[guid].Name = name for every resolved name. */
  method Rename(accountsById: map<GUID, L.Account>, actNames: map<GUID, string>) returns (renamed: map<GUID, L.Account>)
    requires actNames.Keys <= accountsById.Keys
    ensures renamed == Renamed(accountsById, actNames)
  {
    renamed := accountsById;
    var todo := actNames.Keys;
    while todo != {}
      invariant todo <= actNames.Keys
      invariant renamed.Keys == accountsById.Keys
      invariant forall g :: g in renamed ==>
        renamed[g] == if g in actNames && g !in todo then accountsById[g].(name := actNames[g]) else accountsById[g]
      decreases todo
    {
      var g :| g in todo;
      renamed := renamed[g := renamed[g].(name := actNames[g])];
      todo := todo - {g};
    }
  }

  /** The last loop of File.Import. */
  method ImportTransactions(ts: seq<Transaction>, accts: map<GUID, L.Account>, p: Parsers) returns (r: Result<map<string, L.Transaction>, (Transaction, ImportError)>)
    ensures r == Collect(ts, TransactionId, TransactionStep(accts, p))
  {
    var txs: map<string, L.Transaction> := map[];
    for j := 0 to |ts|
      invariant Collect(ts[..j], TransactionId, TransactionStep(accts, p)) == Ok(txs)
    {
      assert ts[..j + 1][..j] == ts[..j];
      var trn := TransactionImport(ts[j], accts, p);
      if trn.Err? {
        CollectPrefixFails(ts, j + 1, TransactionId, TransactionStep(accts, p));
        return Err((ts[j], trn.error));
      }
      txs := txs[ts[j].id := trn.value];
    }
    assert ts[..|ts|] == ts;
    r := Ok(txs);
  }

  /** File.Import: the four loops in order; on failure no book is returned. */
  method FileImport(file: File, p: Parsers) returns (book: L.Book?, err: Option<ImportError>)
    ensures err.None? <==> FileImported(file, p).Ok?
    ensures err.Some? ==> book == null && err.value == FileImported(file, p).error
    ensures err.None? ==>
      book != null && fresh(book) &&
      book.accounts == FileImported(file, p).value.accounts &&
      book.transactions == FileImported(file, p).value.transactions &&
      book.balance == map[] && book.flows == map[]
  {
    var xs := file.book.accounts;
    var accountsById, parents := ImportAccounts(xs, p);
    if accountsById.Err? {
      return null, Some(accountsById.error.1);
    }
    assert parents == ParentsOf(file);
    var actNames := ResolveNames(xs, accountsById.value, parents);
    if actNames.Err? {
      return null, Some(actNames.error.1);
    }
    CollectLastWins(xs, AccountId, AccountStep(p));
    CollectLastWins(xs, AccountId, NameStep(accountsById.value, parents));
    var renamed := Rename(accountsById.value, actNames.value);
    var txs := ImportTransactions(file.book.transactions, renamed, p);
    if txs.Err? {
      return null, Some(Wrap(txs.error.0.id, txs.error.1));
    }
    book := new L.Book(renamed, txs.value);
    err := None;
  }
}
