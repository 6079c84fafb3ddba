/**
 * The in-memory subscription table: a finite map from subscription ID to a
 * record, populated once and never grown or shrunk. A successful lookup
 * changes two tracking fields of the record it finds and nothing else.
 */
module Subscriptions {
  import opened Wrappers
  import opened SubscriptionId

  /** The free-form profile fields of a record, passed through untouched. */
  datatype DisplayFields = DisplayFields(entries: seq<(string, string)>)

  /**
   * One subscription. `lastAccessed` is `None` while it is `null`;
   * `accessCount` is `None` while it is absent or `null`.
   */
  datatype Record = Record(
    subscriptionId: string,
    createdAt: string,
    lastAccessed: Option<string>,
    accessCount: Option<int>,
    ipWhitelist: seq<string>,
    display: DisplayFields)

  /** `access_count || 0`: an absent or zero count reads as 0. */
  function PriorCount(count: Option<int>): (n: int)
    ensures count.Some? && count.value != 0 ==> n == count.value
    ensures count.None? || count.value == 0 ==> n == 0
  {
    match count
    case None => 0
    case Some(c) => c
  }

  /** The fields a lookup never touches are the same in both records. */
  predicate SameProfile(a: Record, b: Record) {
    && a.subscriptionId == b.subscriptionId
    && a.createdAt == b.createdAt
    && a.ipWhitelist == b.ipWhitelist
    && a.display == b.display
  }

  /**
   * The access-tracking update of a successful lookup: `last_accessed`
   * becomes the request time and `access_count` goes up by one.
   */
  function RecordAccess(r: Record, now: string): (r': Record)
    ensures r'.lastAccessed == Some(now)
    ensures r'.accessCount.Some? && r'.accessCount.value == PriorCount(r.accessCount) + 1
    ensures SameProfile(r, r')
  {
    r.(lastAccessed := Some(now), accessCount := Some(PriorCount(r.accessCount) + 1))
  }

  /** A record whose count, once set, is never negative. */
  predicate CountNonNegative(r: Record) {
    r.accessCount.Some? ==> r.accessCount.value >= 0
  }

  /** The JSON names of a record's structured fields. */
  const RecordFieldNames: set<string> :=
    {"subscription_id", "created_at", "last_accessed", "access_count", "ip_whitelist"}

  /**
   * The names the 200 body sets before spreading the record into it; a record
   * field of the same name would override them.
   */
  const ResponseFieldNames: set<string> :=
    {"success", "session_token", "server_time", "verification_id"}

  /**
   * The names only error bodies carry; a record field of one of these names
   * would put an error code or message into a 200 body.
   */
  const ErrorBodyFieldNames: set<string> := {"message", "error_code", "support_reference"}

  /**
   * Display fields are the rest of one JSON object: their names are distinct
   * and clash neither with the structured fields, nor with the 200 body's own,
   * nor with those of the error bodies.
   */
  predicate DisplayNamesOk(d: DisplayFields) {
    && (forall i :: 0 <= i < |d.entries| ==>
          && d.entries[i].0 !in RecordFieldNames
          && d.entries[i].0 !in ResponseFieldNames
          && d.entries[i].0 !in ErrorBodyFieldNames)
    && (forall i, j :: 0 <= i < j < |d.entries| ==> d.entries[i].0 != d.entries[j].0)
  }

  /**
   * The table invariant: each key is its record's own ID and is in the
   * validator's language, counts are non-negative, and display fields keep
   * to names of their own.
   */
  predicate TableInvariant(t: map<string, Record>) {
    forall k :: k in t ==>
      t[k].subscriptionId == k && ValidFormat(k) && CountNonNegative(t[k]) && DisplayNamesOk(t[k].display)
  }

  /** An access update keeps a record's count non-negative and ahead of what it was. */
  lemma RecordAccessCounts(r: Record, now: string)
    requires CountNonNegative(r)
    ensures CountNonNegative(RecordAccess(r, now))
    ensures RecordAccess(r, now).accessCount.value > PriorCount(r.accessCount) >= 0
  {
  }

  /** A record as the table holds it at start-up: never accessed. */
  function FreshRecord(id: string, createdAt: string, display: DisplayFields): (r: Record)
    ensures r.subscriptionId == id && r.lastAccessed.None? && PriorCount(r.accessCount) == 0
  {
    Record(id, createdAt, None, Some(0), [], display)
  }

  /** Placeholder records standing in for the hard-coded ones. */
  function SeedTable(): map<string, Record> {
    var placeholder := DisplayFields([("Status", "Active")]);
    map[
      "DEMO0000000001" := FreshRecord("DEMO0000000001", "2024-12-31", placeholder),
      "DEMO0000000002" := FreshRecord("DEMO0000000002", "2025-01-07", placeholder),
      "DEMO0000000003" := FreshRecord("DEMO0000000003", "2025-06-23", placeholder),
      "DEMO0000000004" := FreshRecord("DEMO0000000004", "2025-06-24T00:00:00Z", placeholder)
    ]
  }

  /** The start-up table satisfies the invariant, and no record has been accessed yet. */
  lemma SeedTableValid()
    ensures TableInvariant(SeedTable())
    ensures |SeedTable()| == 4
    ensures forall k :: k in SeedTable() ==>
              SeedTable()[k].lastAccessed.None? && PriorCount(SeedTable()[k].accessCount) == 0
  {
    var t := SeedTable();
    assert DisplayNamesOk(DisplayFields([("Status", "Active")]));
    forall k | k in t
      ensures t[k].subscriptionId == k && ValidFormat(k) && CountNonNegative(t[k]) && DisplayNamesOk(t[k].display)
    {
      assert |k| == 14;
      forall i | 0 <= i < |k| ensures IsIdChar(k[i]) {
      }
    }
    assert t.Keys == {"DEMO0000000001", "DEMO0000000002", "DEMO0000000003", "DEMO0000000004"};
  }
}
