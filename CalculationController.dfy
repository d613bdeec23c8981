/** The server's saved calculations: the `calculations` table, held in
    memory, and the four handlers that create, list, delete and clear rows.
    A failing database call is a `bool` parameter; the clock is `now`. */
module CalculationController {
  import opened Wrappers
  import opened Seqs
  import opened Decimal
  import opened Validation
  import opened Accounts
  import opened NutritionTypes
  import opened CalculationValidators

  /** The fourteen numeric columns of a row, flat as the table stores them. */
  datatype Columns = Columns(
    glucoseVolume: real, glucoseConcentration: real,
    aminoAcidsVolume: real, aminoAcidsConcentration: real,
    lipidsVolume: real, lipidsConcentration: real,
    glucoseGrams: real, glucoseCalories: real,
    aminoAcidsGrams: real, aminoAcidsCalories: real,
    lipidsGrams: real, lipidsCalories: real,
    totalCalories: real, totalVolume: real)

  /** A row: its `SERIAL` id, the owner (none for a guest), the values, and `created_at`. */
  datatype Row = Row(id: int, userId: Option<UserId>, values: Columns, createdAt: int)

  /** The column a body field is stored in. */
  function Column(c: Columns, f: Field): real
  {
    match f
    case GlucoseVolume => c.glucoseVolume
    case GlucoseConcentration => c.glucoseConcentration
    case AminoAcidsVolume => c.aminoAcidsVolume
    case AminoAcidsConcentration => c.aminoAcidsConcentration
    case LipidsVolume => c.lipidsVolume
    case LipidsConcentration => c.lipidsConcentration
    case GlucoseGrams => c.glucoseGrams
    case GlucoseCalories => c.glucoseCalories
    case AminoAcidsGrams => c.aminoAcidsGrams
    case AminoAcidsCalories => c.aminoAcidsCalories
    case LipidsGrams => c.lipidsGrams
    case LipidsCalories => c.lipidsCalories
    case TotalCalories => c.totalCalories
    case TotalVolume => c.totalVolume
  }

  /** The values the INSERT stores: each body field in its own column. */
  function ColumnsOf(body: Body): (c: Columns)
    requires forall f: Field :: f in body
    ensures forall f: Field :: Column(c, f) == body[f]
  {
    Columns(
      body[GlucoseVolume], body[GlucoseConcentration],
      body[AminoAcidsVolume], body[AminoAcidsConcentration],
      body[LipidsVolume], body[LipidsConcentration],
      body[GlucoseGrams], body[GlucoseCalories],
      body[AminoAcidsGrams], body[AminoAcidsCalories],
      body[LipidsGrams], body[LipidsCalories],
      body[TotalCalories], body[TotalVolume])
  }

  /** The history entry a row becomes: the decimal id, the creation time, and the
      columns placed field for field into the nested prescription and result. */
  function ToHistoryEntry(row: Row): (e: CalculationHistory)
    requires row.id >= 1
    ensures e.id == NatToString(row.id) && e.timestamp == row.createdAt
    ensures var c := row.values;
            && e.input.glucose == Solution(c.glucoseVolume, c.glucoseConcentration)
            && e.input.aminoAcids == Solution(c.aminoAcidsVolume, c.aminoAcidsConcentration)
            && e.input.lipids == Solution(c.lipidsVolume, c.lipidsConcentration)
            && e.result.glucose == Macro(c.glucoseGrams, c.glucoseCalories)
            && e.result.aminoAcids == Macro(c.aminoAcidsGrams, c.aminoAcidsCalories)
            && e.result.lipids == Macro(c.lipidsGrams, c.lipidsCalories)
            && e.result.total == Totals(c.totalCalories, c.totalVolume)
  {
    var c := row.values;
    CalculationHistory(
      NatToString(row.id),
      row.createdAt,
      ParenteralNutrition(
        Solution(c.glucoseVolume, c.glucoseConcentration),
        Solution(c.aminoAcidsVolume, c.aminoAcidsConcentration),
        Solution(c.lipidsVolume, c.lipidsConcentration)),
      NutritionCalculation(
        Macro(c.glucoseGrams, c.glucoseCalories),
        Macro(c.aminoAcidsGrams, c.aminoAcidsCalories),
        Macro(c.lipidsGrams, c.lipidsCalories),
        Totals(c.totalCalories, c.totalVolume)))
  }

  /** Distinct rows have distinct entry ids. */
  lemma EntryIdsDistinct(a: Row, b: Row)
    requires a.id >= 1 && b.id >= 1 && a.id != b.id
    ensures ToHistoryEntry(a).id != ToHistoryEntry(b).id
  {
    if NatToString(a.id) == NatToString(b.id) {
      NatToStringInjective(a.id, b.id);
    }
  }

  /** The key that puts the newest `created_at` first. */
  function NewestFirst(row: Row): int
  {
    -row.createdAt
  }

  const HistoryLimit := 50

  /** The rows of `uid`, ordered by `created_at` descending, at most 50: the query of `getCalculations`. */
  function OwnedNewestFirst(rows: seq<Row>, uid: UserId): (r: seq<Row>)
    ensures var owned := Filter(rows, (x: Row) => x.userId == Some(uid));
            |r| == if |owned| < HistoryLimit then |owned| else HistoryLimit
    ensures forall x :: x in r ==> x in rows && x.userId == Some(uid)
    ensures forall i, j :: 0 <= i < j < |r| ==> r[i].createdAt >= r[j].createdAt
    ensures multiset(r) <= multiset(Filter(rows, (x: Row) => x.userId == Some(uid)))
  {
    var sorted := SortBy(Filter(rows, (x: Row) => x.userId == Some(uid)), NewestFirst);
    var r := Take(sorted, HistoryLimit);
    assert forall i :: 0 <= i < |r| ==> r[i] == sorted[i];
    assert sorted == r + sorted[|r|..];
    r
  }

  /** No row of the caller left out of the history is newer than one listed;
      when the caller has at most 50 rows, all of them are listed. */
  lemma OwnedNewestFirstKeepsNewest(rows: seq<Row>, uid: UserId, x: Row)
    requires x in rows && x.userId == Some(uid)
    ensures var r := OwnedNewestFirst(rows, uid);
            && (forall j :: 0 <= j < |r| && x.createdAt > r[j].createdAt ==> x in r)
            && (|Filter(rows, (y: Row) => y.userId == Some(uid))| <= HistoryLimit ==> x in r)
  {
    var sorted := SortBy(Filter(rows, (y: Row) => y.userId == Some(uid)), NewestFirst);
    var r := OwnedNewestFirst(rows, uid);
    assert x in sorted;
    forall j | 0 <= j < |r| && x.createdAt > r[j].createdAt ensures x in r {
      TakeSortedKeepsSmallerKeys(sorted, NewestFirst, HistoryLimit, x, j);
    }
  }

  /** The answer to a history request. */
  datatype HistoryReply = Listed(calculations: seq<CalculationHistory>, message: Option<string>) | HistoryFailed(error: string)

  const GuestHistoryMessage := "Login to save and view calculation history"

  /** `getCalculations`: a guest gets an empty list and a hint without the table
      being read; a user gets their newest 50 rows as history entries. */
  function HistoryFor(user: Option<User>, rows: seq<Row>, dbOk: bool): (reply: HistoryReply)
    requires forall x :: x in rows ==> x.id >= 1
    ensures user.None? ==> reply == Listed([], Some(GuestHistoryMessage))
    ensures user.Some? && !dbOk ==> reply == HistoryFailed("Failed to get calculations")
    ensures user.Some? && dbOk ==> reply.Listed? && reply.message == None
    ensures reply.Listed? && user.Some? ==>
              var owned := OwnedNewestFirst(rows, user.value.id);
              |reply.calculations| == |owned|
              && forall i :: 0 <= i < |owned| ==> reply.calculations[i] == ToHistoryEntry(owned[i])
  {
    if user.None? then Listed([], Some(GuestHistoryMessage))
    else if !dbOk then HistoryFailed("Failed to get calculations")
    else
      var owned := OwnedNewestFirst(rows, user.value.id);
      Listed(seq(|owned|, i requires 0 <= i < |owned| => ToHistoryEntry(owned[i])), None)
  }

  /** The listed history is newest first, and each entry is one of the caller's rows. */
  lemma HistoryIsCallersNewestFirst(user: User, rows: seq<Row>)
    requires forall x :: x in rows ==> x.id >= 1
    ensures var h := HistoryFor(Some(user), rows, true).calculations;
            && (forall i, j :: 0 <= i < j < |h| ==> h[i].timestamp >= h[j].timestamp)
            && (forall i :: 0 <= i < |h| ==> exists x :: x in rows && x.userId == Some(user.id) && h[i] == ToHistoryEntry(x))
  {
    var owned := OwnedNewestFirst(rows, user.id);
    var h := HistoryFor(Some(user), rows, true).calculations;
    forall i | 0 <= i < |h|
      ensures exists x :: x in rows && x.userId == Some(user.id) && h[i] == ToHistoryEntry(x)
    {
      assert owned[i] in owned;
    }
  }

  /** A saved row reads back as the history entry of the prescription and result that were sent. */
  lemma StoredRowReadsBack(id: int, uid: Option<UserId>, input: ParenteralNutrition, result: NutritionCalculation, body: Body, now: int)
    requires id >= 1
    requires forall f: Field :: f in body
    requires body[GlucoseVolume] == input.glucose.volume && body[GlucoseConcentration] == input.glucose.concentration
    requires body[AminoAcidsVolume] == input.aminoAcids.volume && body[AminoAcidsConcentration] == input.aminoAcids.concentration
    requires body[LipidsVolume] == input.lipids.volume && body[LipidsConcentration] == input.lipids.concentration
    requires body[GlucoseGrams] == result.glucose.grams && body[GlucoseCalories] == result.glucose.calories
    requires body[AminoAcidsGrams] == result.aminoAcids.grams && body[AminoAcidsCalories] == result.aminoAcids.calories
    requires body[LipidsGrams] == result.lipids.grams && body[LipidsCalories] == result.lipids.calories
    requires body[TotalCalories] == result.total.calories && body[TotalVolume] == result.total.volume
    ensures ToHistoryEntry(Row(id, uid, ColumnsOf(body), now)) == CalculationHistory(NatToString(id), now, input, result)
  {
  }

  /** The rows a delete by `id` removes: the one with that id owned by `uid`. */
  function WithoutOwnedRow(rows: seq<Row>, id: int, uid: UserId): (r: seq<Row>)
    ensures forall x :: x in r <==> x in rows && !(x.id == id && x.userId == Some(uid))
  {
    Filter(rows, (x: Row) => !(x.id == id && x.userId == Some(uid)))
  }

  /** The rows a clear keeps: everyone's but the caller's. */
  function WithoutOwner(rows: seq<Row>, uid: UserId): (r: seq<Row>)
    ensures forall x :: x in r <==> x in rows && x.userId != Some(uid)
  {
    Filter(rows, (x: Row) => x.userId != Some(uid))
  }

  function RowId(row: Row): int
  {
    row.id
  }

  /** Ids are unique: each row has its own. */
  ghost predicate UniqueIds(rows: seq<Row>)
  {
    KeysDistinct(rows, RowId)
  }

  /** With unique ids, deleting an owned row removes that row and only that row. */
  lemma DeleteRemovesExactlyOne(rows: seq<Row>, k: nat, uid: UserId)
    requires UniqueIds(rows) && k < |rows| && rows[k].userId == Some(uid)
    ensures WithoutOwnedRow(rows, rows[k].id, uid) == rows[..k] + rows[k + 1..]
  {
    FilterDropsExactlyOne(rows, (x: Row) => !(x.id == rows[k].id && x.userId == Some(uid)), k);
  }

  /** Clearing keeps every other user's rows and every guest row, in their order. */
  lemma ClearKeepsOthersInOrder(a: seq<Row>, b: seq<Row>, uid: UserId)
    ensures WithoutOwner(a + b, uid) == WithoutOwner(a, uid) + WithoutOwner(b, uid)
  {
    FilterConcat(a, b, (x: Row) => x.userId != Some(uid));
  }

  /** A plain answer: a status and its message (`message` on success, `error` otherwise). */
  datatype Reply = Reply(status: int, text: string)

  /** The answer to a create request. */
  datatype CreateReply =
    | Invalid(errors: seq<ValidationError>)
    | Created(message: string, row: Row, isGuest: bool)
    | CreateFailed(error: string)

  const SavedMessage := "Calculation saved successfully"
  const GuestSavedMessage := "Calculation processed (not saved - guest mode)"

  /** The table, with the next value of its id sequence. */
  class CalculationsTable {
    var rows: seq<Row>
    var nextId: int

    ghost predicate Valid()
      reads this
    {
      && nextId >= 1
      && UniqueIds(rows)
      && forall x :: x in rows ==> 1 <= x.id < nextId
    }

    constructor ()
      ensures Valid() && rows == []
    {
      rows := [];
      nextId := 1;
    }

    /** `createCalculation`: a body that fails validation is answered with its
        errors and nothing is stored; otherwise the row is inserted, owned by
        the user or by nobody for a guest, and a guest's row is stored as well. */
    method Create(user: Option<User>, body: Body, now: int, dbOk: bool) returns (reply: CreateReply)
      requires Valid()
      modifies this
      ensures Valid()
      ensures Validate(body) != [] ==> reply == Invalid(Validate(body)) && rows == old(rows)
      ensures Validate(body) == [] && !dbOk ==> reply == CreateFailed("Failed to save calculation") && rows == old(rows)
      ensures Validate(body) == [] && dbOk ==>
                && (forall f: Field :: f in body)
                && var row := Row(old(nextId), if user.Some? then Some(user.value.id) else None, ColumnsOf(body), now);
                   && rows == old(rows) + [row]
                   && reply == Created(if user.Some? then SavedMessage else GuestSavedMessage, row, user.None?)
    {
      var errors := Validate(body);
      if errors != [] {
        return Invalid(errors);
      }
      ValidateIff(body);
      var userId: Option<UserId> := if user.Some? then Some(user.value.id) else None;
      if !dbOk {
        return CreateFailed("Failed to save calculation");
      }
      var row := Row(nextId, userId, ColumnsOf(body), now);
      rows := rows + [row];
      nextId := nextId + 1;
      var message := if userId.Some? then SavedMessage else GuestSavedMessage;
      reply := Created(message, row, userId.None?);
    }

    /** `getCalculations`. */
    method GetCalculations(user: Option<User>, dbOk: bool) returns (reply: HistoryReply)
      requires Valid()
      ensures reply == HistoryFor(user, rows, dbOk)
    {
      reply := HistoryFor(user, rows, dbOk);
    }

    /** `deleteCalculation`: the id text must read as an integer (else the query
        fails: 500); an id that no row of the caller has is answered 404 and
        changes nothing; otherwise that row is removed. */
    method DeleteCalculation(user: User, idParam: string, dbOk: bool) returns (reply: Reply)
      requires Valid()
      modifies this
      ensures Valid()
      ensures ParseInteger(idParam).None? || !dbOk ==> reply == Reply(500, "Failed to delete calculation") && rows == old(rows)
      ensures ParseInteger(idParam).Some? && dbOk && !(exists x :: x in old(rows) && x.id == ParseInteger(idParam).value && x.userId == Some(user.id)) ==>
                reply == Reply(404, "Calculation not found") && rows == old(rows)
      ensures ParseInteger(idParam).Some? && dbOk && (exists x :: x in old(rows) && x.id == ParseInteger(idParam).value && x.userId == Some(user.id)) ==>
                reply == Reply(200, "Calculation deleted successfully")
                && rows == WithoutOwnedRow(old(rows), ParseInteger(idParam).value, user.id)
    {
      var id := ParseInteger(idParam);
      if id.None? || !dbOk {
        return Reply(500, "Failed to delete calculation");
      }
      var found := exists x :: x in rows && x.id == id.value && x.userId == Some(user.id);
      if !found {
        return Reply(404, "Calculation not found");
      }
      FilterKeepsKeysDistinct(rows, (x: Row) => !(x.id == id.value && x.userId == Some(user.id)), RowId);
      rows := WithoutOwnedRow(rows, id.value, user.id);
      reply := Reply(200, "Calculation deleted successfully");
    }

    /** `clearCalculations`: every row of the caller goes, every other row stays. */
    method ClearCalculations(user: User, dbOk: bool) returns (reply: Reply)
      requires Valid()
      modifies this
      ensures Valid()
      ensures !dbOk ==> reply == Reply(500, "Failed to clear calculations") && rows == old(rows)
      ensures dbOk ==> reply == Reply(200, "All calculations cleared successfully") && rows == WithoutOwner(old(rows), user.id)
    {
      if !dbOk {
        return Reply(500, "Failed to clear calculations");
      }
      FilterKeepsKeysDistinct(rows, (x: Row) => x.userId != Some(user.id), RowId);
      rows := WithoutOwner(rows, user.id);
      reply := Reply(200, "All calculations cleared successfully");
    }
  }
}
