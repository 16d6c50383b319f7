# gocash core in Dafny

This project models the accounting core of gocash, a reader for GnuCash 2
XML books. It covers five areas:

- **GUIDs.** An identifier is 32 hex digits. `GUID.Bytes` decodes the
  text to 16 bytes. `NewGUID` writes a 16-byte digest as lower-case hex.
- **Amounts.** An amount is an exact rational, kept in lowest terms the
  way `big.Rat` keeps it. The model covers three operations:
  - addition;
  - display with two decimals (`Amount.String`);
  - the JSON form `"num/den"`, written by `MarshalJSON` and read by
    `UnmarshalJSON`.
- **The book.** A `Book` holds accounts and transactions.
  `Book.Recompute` does three things:
  - gathers every flow of every transaction into its account's list;
  - points each flow back at its transaction;
  - sorts each list by transaction date and sums each account's balance.
- **The GnuCash importer.** The importer starts from the already decoded
  XML tree of a file. It imports every account, resolves each name by
  walking up the parent chain, and imports every transaction with its
  splits. Slot lists are decoded into maps along the way. The first
  failure stops the import, and then no book is returned.
- **Reports and web helpers.**
  - `reports.Balance` sums a set of flow lists per month. It returns, for
    each month in increasing order, the month's first instant and the
    running total so far.
  - The web server's templates use two more helpers. `cumulFlows` gives
    the running balance after each flow. `sortAccts` lists the accounts by
    type and then by name.

## How the model is built

- Pure Go code is written as functions, with lemmas about them.
- Go code that works by loops and state is written as methods. Each
  method is proved against a specification function. Examples:
  - `Amount.Add` is a method of the `Amount` class.
  - `Book.Recompute` changes the `Book` class's maps.
  - The flow lists are sorted by an in-place insertion sort over an
    array.
  - `File.Import` runs its four loops in turn.
- Go's unordered iteration over a map is a `:|` choice. The proofs
  therefore hold for every iteration order.
- Go addresses become keys:
  - an account is its GUID;
  - a transaction is its id;
  - a flow address `&trn.Flows[i]` is `FlowRef(tx, i)`.
- Some inputs are parameters of the model rather than computed by it:
  - `time.Parse` with the two layouts of the importer is a pair of
    caller-supplied partial functions, `Parsers`.
  - The calendar (`Year()`/`Month()` of an instant) is a function.
  - Instants are integers (nanoseconds).
- A Go panic becomes a `Panicked` error. The importer panics in two
  cases:
  - a bad slot value;
  - the nil dereference when a parent account is unknown.

  On a parent cycle the source neither panics nor returns: its name loop
  runs forever. The model, which must return, reports such a walk as
  `Panicked(EndlessParentChain)` (see Findings).

### Behaviour of the code that the model keeps

- **Account names.** Each ancestor's name is prefixed with a "/" after
  it, the root account's own name included. There is no special case for
  the ROOT type and no leading "/": Root, Bank, Checking resolve to
  "Root", "Root/Bank" and "Root/Bank/Checking".
- **Fields never set.** The importer does not set these fields:
  - `Account.Id`, `Unit` and `Children`;
  - `Transaction.Id`;
  - `Flow.Id`.

  The model leaves them empty.
- **Sort stability.** `Recompute` sorts with `sort.Sort`, which is not
  stable. The model proves the lists sorted and permuted, but claims no
  order among flows of the same date.
- **Parent cycles.** The code has no cycle guard. On a cycle the name
  loop never ends (see Findings).

## Model

| member | source | states |
|---|---|---|
| Guid.Bytes | types/guid.go:41-48 | succeeds exactly on 32 hex digits, giving 16 bytes, each the value of its digit pair; valid hex of another even length is an InvalidLength error carrying the byte count; anything else is a hex error |
| Guid.HexDecode | xmlimport/gnucash.go:57-64 | the decode step of GUID.Bytes (a copy of types.GUID.Bytes): succeeds exactly on an even number of hex digits, with half as many bytes; odd length of valid digits is OddLength |
| Guid.HexDecodeBytes | xmlimport/gnucash.go:58 | byte i of a successful decode is 16 times the high digit plus the low digit |
| Guid.HexEncode | types/guid.go:38 | the encoding is twice as long as the digest |
| Guid.HexEncodeDigits | types/guid.go:38 | characters 2i and 2i+1 of the encoding are the lower-case digits of the high and low nibble of byte i |
| Guid.HexEncodeIsHex | types/guid.go:38 | every character of the encoding is a hex digit |
| Guid.HexDecodeOfEncode | types/guid.go:38 | decoding the encoding of any bytes gives back the same bytes |
| Guid.NewGuidText | types/guid.go:37-38 | the text of a new GUID is 32 characters long and Bytes of it returns the 16-byte digest |
| Decimal.NatToString | types/types.go:50 | the decimal text of a natural number is canonical and denotes that number |
| Decimal.ParseNat | types/types.go:62 | accepts exactly the texts NatToString prints, giving back the number printed |
| Decimal.CanonicalIsText | types/types.go:62 | a digit string without leading zeros is the printed text of its own value |
| Decimal.SignOfText | types/types.go:62 | the sign split of a printed number, with or without a leading "+" or "-", finds that sign and the digits |
| Decimal.ParseInt | types/types.go:62 | accepts only a printed number with an optional "+" or "-" sign; every such text is accepted, with the signed value |
| Decimal.ParseIntOfIntToString | types/types.go:54 | the decimal text of any integer parses back to it |
| Decimal.Atoi | xmlimport/gnucash.go:249 | a parsed value fits in 64 bits |
| Decimal.AtoiOfCanonical | xmlimport/gnucash.go:249 | Atoi agrees with the canonical parser on every canonical text in the 64-bit range |
| Decimal.AtoiOfIntToString | xmlimport/gnucash.go:249 | the decimal text of every 64-bit integer reads back through Atoi |
| Decimal.AtoiOverflow | xmlimport/gnucash.go:249-252 | the text of an integer outside the 64-bit range is refused, which makes Slots.Map panic |
| Decimal.AtoiLeadingZeros | xmlimport/gnucash.go:249 | Atoi takes a plus sign and leading zeros ("+007" is 7); the model's canonical integer parser ParseInt refuses that text, although big.Rat.SetString itself accepts it |
| Amounts.Normalize | types/types.go:69 | the result has the value of the fraction given and is in lowest terms: its numerator and denominator have gcd 1 |
| Amounts.GcdGreatest | types/types.go:69 | every common divisor of two numbers divides their gcd |
| Amounts.Coprime | types/types.go:69 | two numbers divided by their gcd have gcd 1 |
| Amounts.NormalizeLowest | types/types.go:69 | a numerator of either sign and a positive denominator, divided by their gcd, have gcd 1 |
| Amounts.NormalizeOfLowest | types/types.go:69 | a fraction already in lowest terms is left unchanged |
| Amounts.Plus | types/types.go:69 | the sum's value is the exact sum of the two values, and the sum is in lowest terms |
| Amounts.Amount.constructor | types/types.go:91 | new(Amount) is zero |
| Amounts.Amount.Add | types/types.go:69 | the receiver becomes the exact sum and is returned |
| Amounts.Amount.SetRat | types/types.go:47 | the receiver takes the value given and is returned |
| Amounts.String | types/types.go:49-51 | FloatString(2): an integer amount is its decimal text followed by ".00"; any other amount is its sign, the whole part and two digits of its magnitude rounded to hundredths (stated by StringIsCents and CentsNearest) |
| Amounts.TwoDigits | types/types.go:50 | two digits, zero-padded, denoting a number below 100 |
| Amounts.RoundedParts | types/types.go:50 | the hundredths part of a rounded quotient is below 100 |
| Amounts.StringIsCents | types/types.go:49-51 | String is the sign, the whole part of the rounded hundredths, ".", and two digits |
| Amounts.CentsNearest | types/types.go:49-51 | the displayed hundredths are the nearest to the exact value, with halves rounded away from zero |
| Amounts.RoundedError | types/types.go:50 | the rounding error of RoundedParts is at most half a hundredth, on the side that rounds halves up |
| Amounts.ShowExample | types/types.go:49-55 | 367/100 is written "\"367/100\"" and displayed "3.67" |
| Amounts.RatString | types/types.go:54 | big.Rat.String: the numerator alone when the denominator is 1, otherwise "num/den" (read back by ParseRatString) |
| Amounts.MarshalJSON | types/types.go:53-55 | RatString between double quotes (read back by JSONRoundTrip) |
| Amounts.Unquote | types/types.go:58 | a successful unquote is the text between the two quotes, and that text has no quote, backslash or newline |
| Amounts.UnquoteOfQuote | types/types.go:58 | every text without a quote, backslash or newline, put between double quotes, unquotes back to itself |
| Amounts.IndexOf | types/types.go:62 | the index of the first '/', or the length when there is none |
| Amounts.ParseRat | types/types.go:62 | the empty text is refused; a result is in lowest terms |
| Amounts.NumeralPlain | types/types.go:62 | an integer text that ParseInt accepts has no '/' and no character that needs escaping |
| Amounts.SplitAtSlash | types/types.go:62 | in "t/u" with no '/' in t, the first '/' follows t and splits the text back into t and u |
| Amounts.ParseRatInteger | types/types.go:62 | every integer text ParseInt accepts, signed or not, is read as that integer over 1 |
| Amounts.ParseRatFraction | types/types.go:62 | "n/d" with an accepted numerator and denominator is refused when d is zero, and is otherwise n/d normalised, with the value n/d |
| Amounts.ParseRatString | types/types.go:54 | RatString of any amount parses back to the same value |
| Amounts.RatStringPlain | types/types.go:54 | RatString needs no escaping between quotes |
| Amounts.ParseJSON | types/types.go:57-67 | an unquoting failure is NotQuoted; success is the parse of the unquoted text; a parse failure is NotRational and carries the unquoted text |
| Amounts.ParseJSONOfQuote | types/types.go:57-67 | for a quoted text without escapes, UnmarshalJSON succeeds exactly when the rational parser accepts the text, with its result, and otherwise fails with NotRational carrying the text |
| Amounts.JSONRoundTrip | types/types.go:53-67 | UnmarshalJSON of MarshalJSON of any amount succeeds with the same value, and gives back the amount itself when it is in lowest terms |
| Amounts.ParseJSONExample | types/types.go:57-67 | the JSON text "\"367/100\"" reads as 367/100 |
| Amounts.ParseJSONForms | types/types.go:57-67 | the JSON texts "\"10/4\"", "\"-3\"" and "\"+5/2\"", which MarshalJSON never writes, read as 5/2, -3 and 5/2 |
| Amounts.Amount.UnmarshalJSON | types/types.go:57-67 | no error exactly when ParseJSON succeeds, with the receiver then set to its value; otherwise the ParseJSON error |
| Sorting.Swap | types/types.go:116 | the two slots are exchanged and the multiset is unchanged |
| Sorting.Insert | types/types.go:107 | one insertion step extends the sorted prefix by one and keeps the multiset |
| Sorting.SortBy | types/types.go:107 | for a total preorder, the array ends sorted and is a permutation of the original |
| Sorting.SortSeq | gui/server.go:80 | the output is sorted, a permutation and of the same length |
| Sorting.DistinctPermutation | gui/server.go:76-81 | a permutation of a list without repeats has none either, and the same elements |
| Ledger.Adopt | types/types.go:103 | the transaction is unchanged except that every flow's Parent is the given transaction |
| Ledger.WithParents | types/types.go:100-104 | every transaction is kept under its key, with its flows adopted |
| Ledger.WithParentsIdempotent | types/types.go:103 | writing the back-references twice is the same as once |
| Ledger.ParentIsContainer | types/types.go:103 | after sortFlows, each flow's Parent is the transaction holding it, and nothing else about the flow changes |
| Ledger.WithParentsKeepsFlows | types/types.go:100-104 | writing Parent moves no flow to another account and changes no price |
| Ledger.ByDate | types/types.go:115 | flowsByDate.Less: a flow sorts before another when its parent transaction's date is not later (stated by ByDateIsTotal) |
| Ledger.ByDateIsTotal | types/types.go:112-116 | flowsByDate.Less gives a total preorder, so sort.Sort can sort with it |
| Ledger.ParentDateIsDate | types/types.go:115 | once adopted, a flow's sort key is its own transaction's date |
| Ledger.SumFlows | types/types.go:90-96 | sumFlows is the exact sum of the prices, and zero for no flows |
| Ledger.AdoptFlows | types/types.go:101-104 | the inner loop adopts the transaction's flows and appends a reference to each flow to its account's list |
| Ledger.CollectedStep | types/types.go:102 | each append keeps every list equal, as a multiset, to the flows of its account met so far |
| Ledger.CollectFlows | types/types.go:99-105 | after the first loop, every account's list holds each of its flows exactly once, and no other; every Parent is written |
| Ledger.SortBuckets | types/types.go:106-108 | each list ends sorted by parent date and is a permutation of what it was |
| Ledger.Book.constructor | types/types.go:72-80 | a book with the given accounts and transactions and no computed data |
| Ledger.Book.SortFlows | types/types.go:98-110 | one list per account with flows, holding exactly that account's flows, sorted by date; transactions get their Parent back-references; nothing else changes |
| Ledger.Book.Recompute | types/types.go:82-88 | Flows as sortFlows gives them; one Balance per account, equal to the exact sum of the prices of that account's flows |
| Ledger.Balances | types/types.go:84-87 | the balance loop gives every account, and only accounts, the sum of its flows |
| Ledger.AccountBalance | types/types.go:86 | sumFlows of an account's list is the sum over all of that account's flows, zero if it has none |
| Ledger.RecomputeTwice | types/types.go:82-88 | a second call again meets Recompute's contract: the same accounts and transactions and the same balance values as after one call; flows of the same date may come in another order |
| Ledger.BalancesAreGroups | types/types.go:84-87 | when every flow's account is in the book, the balances add up to the sum of all flows |
| Ledger.BalancesSumToZero | types/types.go:82-88 | when every transaction balances, so do the account balances: they add up to zero |
| GnuCash.StampTime | xmlimport/gnucash.go:287-290 | the parsed date plus Ns nanoseconds on success; a parse failure carries the date text |
| GnuCash.DecodeSlots | xmlimport/gnucash.go:243-274 | no slots give a nil map; any successful decode of at least one slot gives a map |
| GnuCash.SlotsMap | xmlimport/gnucash.go:243-274 | the loop computes DecodeSlots |
| GnuCash.DecodeValue | xmlimport/gnucash.go:247-267 | one slot value by its type: "integer" through Atoi, "string" as text, "frame" as the map of its own slots, "gdate" through the date parser, any other type a panic (stated by SlotTypes) |
| GnuCash.SlotTypes | xmlimport/gnucash.go:247-267 | integer, string, frame and gdate slots decode to their own variants; a bad integer, a bad date or an unknown type panics |
| GnuCash.DecodeSlotsPanics | xmlimport/gnucash.go:243-274 | Map panics exactly when some slot's value fails, and then with the first failure |
| GnuCash.DecodePrefixPanics | xmlimport/gnucash.go:244 | once a prefix panics, the later slots are never decoded |
| GnuCash.DecodeStep | xmlimport/gnucash.go:268-271 | each slot updates the map so far at its key |
| GnuCash.LastWinsExtend | xmlimport/gnucash.go:271 | one more slot keeps every key mapped to the value of its last slot |
| GnuCash.DecodeSlotsLastWins | xmlimport/gnucash.go:243-274 | a decoded map has exactly the slots' keys, each with the value of the last slot with that key |
| GnuCash.AccountImport | xmlimport/gnucash.go:134-148 | a panic comes exactly from the slots; name and type are copied; a non-string "notes" slot is an error naming the account, and only then; when the slots decode and any "notes" is a string, the import succeeds with the notes text, or "", as description |
| GnuCash.SplitImport | xmlimport/gnucash.go:203-226 | an unknown account is AccountMissing and only then; account, memo and parsed price are copied; an unparsable value is InvalidPrice |
| GnuCash.ReconcileStates | xmlimport/gnucash.go:210-224 | "y" sets Reconciled, with the time of the reconcile date when there is one; an unparsable date is an error; "n" clears it; anything else is InvalidReconciledState |
| GnuCash.ImportSplits | xmlimport/gnucash.go:173-180 | the splits imported in order, stopping at the first failure, which is wrapped with the split's id (stated by ImportSplitsSpec) |
| GnuCash.ImportSplitsSpec | xmlimport/gnucash.go:173-180 | the splits import when every split does, one flow per split in order; otherwise the first failing split's error, wrapped with its id |
| GnuCash.TransactionImportSpec | xmlimport/gnucash.go:162-190 | a slots failure panics; a non-string "notes" slot is DescriptionNotString; then the first failing split's error, before any date is parsed; then date-posted, then date-entered; on success one flow per split in order, Date and Stamp from the time stamps, the notes text or "" as notes, and description and number copied |
| GnuCash.TransactionImported | xmlimport/gnucash.go:162-190 | Transaction.Import as a value: slots, notes, splits, date-posted and date-entered in that order, and the transaction built from them (stated by TransactionImportSpec, computed by TransactionImport) |
| GnuCash.TransactionImport | xmlimport/gnucash.go:162-190 | the method that fills the flows by index computes TransactionImported |
| GnuCash.CollectPrefixFails | xmlimport/gnucash.go:76-80 | once a prefix fails, the later elements are never imported |
| GnuCash.CollectFails | xmlimport/gnucash.go:76-80 | an import loop fails exactly when some element fails, and then with the first failure |
| GnuCash.LastValuesExtend | xmlimport/gnucash.go:81 | one more element keeps every key mapped to its last element's value |
| GnuCash.CollectLastWins | xmlimport/gnucash.go:76-84 | a successful loop holds every key of the input, with the value of the last element with that key |
| GnuCash.WalkUp | xmlimport/gnucash.go:90-92 | the parent walk only fails with a `Panicked` error: the nil dereference of an unknown parent, or an endless chain, on which the source loops forever |
| GnuCash.Ancestors | xmlimport/gnucash.go:90 | the ancestors found are all accounts of the book |
| GnuCash.AncestorsChain | xmlimport/gnucash.go:90 | the ancestors run from a root (no parent), each the parent of the next, to the account's parent |
| GnuCash.WalkUpIsPath | xmlimport/gnucash.go:89-93 | the walk succeeds exactly when the ancestor chain exists, and the name is every ancestor's name followed by "/", root first, then the account's own name |
| GnuCash.RootKeepsName | xmlimport/gnucash.go:89-90 | an account without a parent keeps its own name |
| GnuCash.Chain | xmlimport/gnucash.go:90 | the first n positions of the walk are n long |
| GnuCash.ChainIsWalk | xmlimport/gnucash.go:90 | position i of the chain is where the walk stands after i steps |
| GnuCash.EndlessWalkPresent | xmlimport/gnucash.go:90-91 | a walk out of fuel met an account at every one of its positions |
| GnuCash.EndlessChainIsCycle | xmlimport/gnucash.go:90 | an endless-chain failure means the walk came back to an account it had visited, so the source's loop would never end |
| GnuCash.SelfParentNeverEnds | xmlimport/gnucash.go:90 | for an account that is its own parent, the loop variable is that account at every step |
| GnuCash.SelfParentReported | xmlimport/gnucash.go:90 | the model reports such an account as an endless parent chain, whatever the fuel |
| GnuCash.Renamed | xmlimport/gnucash.go:95-97 | every account is kept, with its resolved name when it has one |
| GnuCash.ImportAccounts | xmlimport/gnucash.go:74-84 | the first loop builds accountsById (first failure wins, last duplicate wins) and, on success, the parents map |
| GnuCash.ResolveName | xmlimport/gnucash.go:89-93 | the inner loop computes the walk up the parent chain |
| GnuCash.ResolveNames | xmlimport/gnucash.go:87-94 | the second loop gives every account's resolved name, or the first failing walk |
| GnuCash.Rename | xmlimport/gnucash.go:95-97 | the third loop renames every account with a resolved name and leaves the others alone |
| GnuCash.ImportTransactions | xmlimport/gnucash.go:100-107 | the last loop imports every transaction under its id, or stops at the first failure |
| GnuCash.ImportAllOrNothing | xmlimport/gnucash.go:71-109 | the import succeeds exactly when every account imports, every name resolves and every transaction imports; each stage fails exactly when one of its elements does |
| GnuCash.ImportFirstAccountError | xmlimport/gnucash.go:76-80 | the first account that fails decides the error, unwrapped |
| GnuCash.ImportedAccounts | xmlimport/gnucash.go:74-97 | the accounts are keyed by their XML ids; each is the import of the last account with that id, named by its ancestors' names and its own |
| GnuCash.ImportedTransactions | xmlimport/gnucash.go:100-108 | the transactions are keyed by their XML ids; each is the import of the last transaction with that id, against the renamed accounts |
| GnuCash.Wrap | xmlimport/gnucash.go:104 | a transaction's error is wrapped with its id, except a panic, which passes through unwrapped |
| GnuCash.FileImported | xmlimport/gnucash.go:71-109 | File.Import as a value: the accounts by id, then their names, then the transactions, the first failing stage deciding the error (stated by ImportAllOrNothing, ImportedAccounts and ImportedTransactions) |
| GnuCash.FileImport | xmlimport/gnucash.go:71-109 | no error exactly when the import succeeds; on error no book; on success a new book holding FileImported's accounts and transactions, with no computed data |
| Reports.Key | reports/balance.go:18 | the month key year*16+month of a flow's month (stated by KeyOrder and KeyRoundTrip) |
| Reports.KeyOrder | reports/balance.go:18 | month keys compare as the months they stand for (year, then month), and equal keys are equal months |
| Reports.GoDiv | reports/balance.go:36 | Go's / truncates toward zero: the remainder has the sign of the dividend and is smaller than the divisor |
| Reports.GoMod | reports/balance.go:36 | Go's % is what the truncating quotient leaves |
| Reports.FirstOfMonth | reports/balance.go:36-37 | time.Date normalises the month into the year, keeping year*12+month; day 1 at midnight |
| Reports.KeyTime | reports/balance.go:36-37 | the instant of a key: time.Date of the year k/16 and month k%16, in Go's truncating arithmetic, day 1 at midnight |
| Reports.KeyRoundTrip | reports/balance.go:36-37 | for a year not before 0, the key decodes back to its year and month, and the report's instant is that month's first instant |
| Reports.NegativeYearKey | reports/balance.go:36-37 | March of year -1 has key -13, which decodes to November of year -2 |
| Reports.Select | reports/balance.go:18-23 | the flows picked for a month lie in that month |
| Reports.PerMonthSpec | reports/balance.go:13-25 | perMonth has a key for exactly the months that have flows, each holding the exact sum of that month's prices |
| Reports.NoneSelected | reports/balance.go:18-23 | a month without flows selects none |
| Reports.CumulativeStep | reports/balance.go:38 | one more flow adds its price to a running total once, if its month is counted |
| Reports.CumulativeAll | reports/balance.go:33-42 | over distinct keys covering every month, the running total is the sum of all prices |
| Reports.IntLeTotal | reports/balance.go:31 | sort.Ints' order is a total preorder |
| Reports.AddFlows | reports/balance.go:16-24 | the inner loop adds each flow of a list to perMonth |
| Reports.SumPerMonth | reports/balance.go:15-25 | the nested loops compute perMonth over all the lists one after another |
| Reports.KeysOf | reports/balance.go:27-30 | every key of perMonth once |
| Reports.SortedKeys | reports/balance.go:27-31 | every key of perMonth once, in increasing order |
| Reports.RunningTotals | reports/balance.go:33-42 | one instant and one value per month; value i is the sum of months 0..i |
| Reports.BalanceTotals | reports/balance.go:33-42 | the last running total is the total of all the flows |
| Reports.Balance | reports/balance.go:12-45 | the months are distinct and increasing, exactly those with flows; T[i] is month i's first instant and Values[i] the sum up to month i; the report is empty exactly when there are no flows; the last value is the total of all the flows |
| Reports.ReportRecurrence | reports/balance.go:34-42 | Values[0] is the first month's sum, and each later value is the previous one plus its month's sum |
| Reports.ReportMonths | reports/balance.go:35-39 | when no flow falls before year 0, each instant is the first instant of some flow's month, strictly increasing |
| Gui.CumulFlows | gui/server.go:66-73 | one new amount per flow, entry i the exact sum of flows 0..i; the last is the total; the entries are distinct and fresh |
| Gui.StrLess | gui/server.go:90-92 | Go's < on strings: lexicographic on characters, a proper prefix first |
| Gui.AccountLess | gui/server.go:88-93 | byTypeAndName.Less: by type, and by name when the types are equal (stated by AccountLessOrder) |
| Gui.StrLessIrreflexive | gui/server.go:90-92 | no string is less than itself |
| Gui.StrLessTransitive | gui/server.go:90-92 | string order is transitive |
| Gui.StrLessTotal | gui/server.go:90-92 | of two different strings one is less |
| Gui.AccountLessOrder | gui/server.go:88-93 | byTypeAndName.Less is a strict order, total on accounts that differ in type or name |
| Gui.ByTypeAndNameIsTotal | gui/server.go:80-93 | the order sort.Sort uses is a total preorder |
| Gui.AccountList | gui/server.go:76-79 | every account of the book appears once |
| Gui.SortAccts | gui/server.go:75-82 | each account of the book exactly once, as many as the book has, and no account is less than one before it |
| Gui.CardinalityOfKeys | gui/server.go:76-79 | a distinct list holding every key of the map is as long as the map |
| Gui.SortedByTypeThenName | gui/server.go:88-93 | read back: types never decrease, and within a type names never decrease |

## Left out

- Reading and decoding the XML (`Read`, `ReadFile`, `Import`, `ImportFile`, xmlimport/gnucash.go:18-53) is file and library I/O. The model starts from the decoded tree (`GnuCash.File`).
- `Slots.MarshalJSON` (xmlimport/gnucash.go:278-280) is a debugging helper over `encoding/json`.
- `time.Parse` with its two layouts is a parameter (`Parsers`). Instants are integers, so a `time.Duration` overflow of the nanosecond offset is not modelled.
- `NewGUID`'s random seed, clock, atomic counter and MD5 hashing (types/guid.go:14-37) are randomness, time and a hash library. Only its final hex step is modelled (`NewGuidText`).
- Guid.Bytes: the partially filled byte array that the source returns next to an error is not modelled, only the error.
- Guid.Bytes: the `%s` applied to an int in the length message prints `%!s(int=N)` in Go. The model carries the length as a number.
- Amounts.ParseRat: only covers the `big.Rat.SetString` forms "n" and "n/d" with canonical digits. Leading zeros, decimal points and exponents are refused here although `SetString` accepts them.
- Amounts.ParseRat: its own contract states that the empty text is refused and that a result is in lowest terms. Which texts it accepts is stated by `ParseRatInteger`, `ParseRatFraction` and `ParseRatString`; that it accepts no text of another form is not stated as a lemma.
- Amounts.Amount.UnmarshalJSON: when the text unquotes but is not a rational, `big.Rat.SetString` leaves the receiver undefined; the model leaves it unchanged, and its contract states nothing about the receiver in that case.
- Amounts.Unquote: models `strconv.Unquote` only for a double-quoted literal without escape sequences. Escapes and back-quoted literals are refused.
- Decimal.Atoi: its contract states only the 64-bit bound. Its agreement with the canonical parser and its overflow behaviour are separate lemmas.
- Go's map iteration order is modelled as an arbitrary choice (`:|`). No result depends on it except the order of ties.
- sort.Sort is not stable and its tie order is unspecified. The model sorts with insertion sort and proves only sortedness and permutation, never a tie order.
- `sort.Sort`'s own algorithm is not modelled. The sort is an in-place insertion sort, which satisfies the same contract.
- Ledger.Book.Recompute: the source keys `Balance` and `Flows` by `*Account`. The model keys them by the account's GUID.
- Ledger.Book.Recompute: it computes `Balance` values freshly, so the aliasing of `*Amount` values between the maps is not modelled.
- GnuCash.FileImport: the source appends accounts and transactions to slices (xmlimport/gnucash.go:83, 106), but `types.Book` declares them as maps keyed by GUID. The model fills those maps by XML id, with a later duplicate id overwriting an earlier one.
- GnuCash.SplitImport: the source assigns the split's value text directly to `Flow.Price` (xmlimport/gnucash.go:208). The model parses it as a rational, and an unparsable value is `InvalidPrice`.
- GnuCash.WalkUp: the walk is bounded by the number of accounts. A longer walk is reported as `EndlessParentChain`. `EndlessChainIsCycle` proves that such a walk has entered a cycle, on which the source loops forever.
- `Account.Id`, `Unit`, `Children`, `Transaction.Id` and `Flow.Id` are never set by the source and stay empty in the model.
- Reports.Balance: the month of an instant depends on its location. The model takes `Year()`/`Month()` as the `Calendar` parameter. `FlowDate` gives a flow without a parent the date 0, a case `Balance` excludes (the source would dereference nil).
- Reports.Balance: `rep.Values` are modelled as values. The model does not state that each entry is a distinct `*big.Rat`.
- Reports.KeyRoundTrip: holds only for years not before 0. `NegativeYearKey` shows what happens before year 0.
- Reports.ReportMonths: holds only for years not before 0, for the same reason.
- Gui.SortAccts: returns the accounts' keys in the book instead of their addresses (`*types.Account`).
- Go compares strings bytewise. On UTF-8 text this is the same as comparing code points, which is what `StrLess` does.
- The web server (HTTP handlers, templates, gui/pages.go) and main.go are not part of this model.

## Findings

| source | as written | input that shows it | evidently intended | confidence | as-written member | corrected member |
|---|---|---|---|---|---|---|
| xmlimport/gnucash.go:90 | `for t := xmlacct.Parent; t != ""; t = parents[t]` has no cycle guard | an account with id "A" whose parent is "A" | the import fails with an error instead of never returning | not executed | GnuCash.SelfParentNeverEnds | GnuCash.SelfParentReported |
