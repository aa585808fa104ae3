/**
 * `/api/privacy/settings`: POST keeps the recognised boolean flags of the request body and
 * writes them to the user's privacy row (updating it or creating it); GET returns the row,
 * or every flag on when the user has none. A row's flags are the columns the handler has
 * written, by name.
 */
module PrivacySettings {
  import opened Wrappers

  /** A value of the parsed JSON body: a boolean or anything else. */
  datatype JsonValue = JsonBool(b: bool) | JsonOther

  datatype PrivacyRow = PrivacyRow(id: string, userId: string, flags: map<string, bool>, updatedAt: int)

  datatype Response = HttpError(status: int, message: string) | Row(row: PrivacyRow) | Defaults(flags: map<string, bool>)

  /** The keys a request may set, in the handler's order. */
  const ValidKeys: seq<string> := ["showWritingStats", "showProjects", "showStreaks", "showDailyGoals",
                                   "showTotalWords", "allowChallengeInvites", "showOnlineStatus"]

  /** The settings reported for a user without a row: every valid key on. */
  function DefaultSettings(): (m: map<string, bool>)
    ensures m.Keys == set k | k in ValidKeys
    ensures forall k :: k in m ==> m[k]
  {
    map k | k in ValidKeys :: true
  }

  /** The `filteredSettings` loop: exactly the valid keys whose value is a boolean, with that
      value. */
  method FilterSettings(settings: map<string, JsonValue>) returns (filtered: map<string, bool>)
    ensures forall k :: k in filtered <==> k in ValidKeys && k in settings && settings[k].JsonBool?
    ensures forall k :: k in filtered ==> filtered[k] == settings[k].b
  {
    filtered := map[];
    for i := 0 to |ValidKeys|
      invariant forall k :: k in filtered <==> k in ValidKeys[..i] && k in settings && settings[k].JsonBool?
      invariant forall k :: k in filtered ==> filtered[k] == settings[k].b
    {
      var key := ValidKeys[i];
      if key in settings && settings[key].JsonBool? {
        filtered := filtered[key := settings[key].b];
      }
    }
    assert ValidKeys[..|ValidKeys|] == ValidKeys;
  }

  /** The filter as a value, for stating what a request leaves behind. */
  function Filtered(settings: map<string, JsonValue>): (m: map<string, bool>)
    ensures m.Keys <= set k | k in ValidKeys
  {
    map k | k in settings && k in ValidKeys && settings[k].JsonBool? :: settings[k].b
  }

  /** At most one row per user: the unique constraint on the user column. */
  ghost predicate OneRowPerUser(rows: seq<PrivacyRow>) {
    forall i, j :: 0 <= i < |rows| && 0 <= j < |rows| && rows[i].userId == rows[j].userId ==> i == j
  }

  function FirstRowOf(rows: seq<PrivacyRow>, userId: string): (r: Option<nat>)
    ensures r.Some? ==> r.value < |rows| && rows[r.value].userId == userId
                        && forall k :: 0 <= k < r.value ==> rows[k].userId != userId
    ensures r.None? ==> forall k :: 0 <= k < |rows| ==> rows[k].userId != userId
  {
    if rows == [] then None
    else if rows[0].userId == userId then Some(0)
    else match FirstRowOf(rows[1..], userId)
      case None => None
      case Some(k) => Some(k + 1)
  }

  /** The `UPDATE … SET …filteredSettings, updatedAt WHERE userId = …` on every row of the user. */
  function UpdateRows(rows: seq<PrivacyRow>, userId: string, filtered: map<string, bool>, now: int): (r: seq<PrivacyRow>)
    ensures |r| == |rows|
    ensures forall k :: 0 <= k < |rows| ==> r[k].userId == rows[k].userId && r[k].id == rows[k].id
  {
    seq(|rows|, k requires 0 <= k < |rows| =>
      if rows[k].userId == userId then rows[k].(flags := rows[k].flags + filtered, updatedAt := now) else rows[k])
  }

  class PrivacyTable {
    var rows: seq<PrivacyRow>

    /** The unique constraint on the user column holds. */
    ghost predicate Valid()
      reads this
    {
      OneRowPerUser(rows)
    }

    constructor(rows0: seq<PrivacyRow>)
      requires OneRowPerUser(rows0)
      ensures Valid()
      ensures rows == rows0
    {
      rows := rows0;
    }

    /** POST for the signed-in `user`. `body` is `None` when the body is not JSON or is the
        JSON `null`, whose keys cannot be read; `storeFails` is a database error; both end in
        the 500. Any other JSON value that is not an object has no keys of its own and is
        passed as the empty map. */
    method Post(user: Option<string>, body: Option<map<string, JsonValue>>, freshId: string, now: int,
                storeFails: bool) returns (response: Response)
      requires Valid()
      modifies this
      ensures Valid()
      ensures user.None? ==> response == HttpError(401, "Unauthorized") && rows == old(rows)
      ensures user.Some? && (body.None? || storeFails) ==>
                response == HttpError(500, "Failed to update privacy settings") && rows == old(rows)
      ensures user.Some? && body.Some? && !storeFails ==>
                var filtered := Filtered(body.value);
                match FirstRowOf(old(rows), user.value)
                case Some(k) =>
                  && rows == UpdateRows(old(rows), user.value, filtered, now)
                  && response == Row(rows[k])
                  && rows[k].flags == old(rows)[k].flags + filtered
                case None =>
                  && rows == old(rows) + [PrivacyRow(freshId, user.value, filtered, now)]
                  && response == Row(PrivacyRow(freshId, user.value, filtered, now))
    {
      if user.None? {
        return HttpError(401, "Unauthorized");
      }
      if body.None? || storeFails {
        return HttpError(500, "Failed to update privacy settings");
      }
      var filteredSettings := FilterSettings(body.value);
      assert filteredSettings == Filtered(body.value);
      var existing := FirstRowOf(rows, user.value);
      PostKeepsOneRowPerUser(rows, user.value, filteredSettings, freshId, now);
      if existing.Some? {
        rows := UpdateRows(rows, user.value, filteredSettings, now);
        response := Row(rows[existing.value]);
      } else {
        var inserted := PrivacyRow(freshId, user.value, filteredSettings, now);
        rows := rows + [inserted];
        response := Row(inserted);
      }
    }

    /** GET for the signed-in `user`. */
    method Get(user: Option<string>, storeFails: bool) returns (response: Response)
      ensures user.None? ==> response == HttpError(401, "Unauthorized")
      ensures user.Some? && storeFails ==> response == HttpError(500, "Failed to fetch privacy settings")
      ensures user.Some? && !storeFails ==>
                match FirstRowOf(rows, user.value)
                case None => response == Defaults(DefaultSettings())
                case Some(k) => response == Row(rows[k])
    {
      if user.None? {
        return HttpError(401, "Unauthorized");
      }
      if storeFails {
        return HttpError(500, "Failed to fetch privacy settings");
      }
      var found := FirstRowOf(rows, user.value);
      if found.None? {
        return Defaults(DefaultSettings());
      }
      return Row(rows[found.value]);
    }
  }

  /** A POST keeps one row per user: it updates the user's row when there is one and adds one
      only when there is none. */
  lemma PostKeepsOneRowPerUser(rows: seq<PrivacyRow>, userId: string, filtered: map<string, bool>, freshId: string,
                               now: int)
    requires OneRowPerUser(rows)
    ensures FirstRowOf(rows, userId).Some? ==> OneRowPerUser(UpdateRows(rows, userId, filtered, now))
    ensures FirstRowOf(rows, userId).None? ==> OneRowPerUser(rows + [PrivacyRow(freshId, userId, filtered, now)])
  {
    var after := rows + [PrivacyRow(freshId, userId, filtered, now)];
    if FirstRowOf(rows, userId).None? {
      forall i, j | 0 <= i < |after| && 0 <= j < |after| && after[i].userId == after[j].userId
        ensures i == j
      {
        if i < |rows| && j < |rows| {
          assert rows[i].userId == rows[j].userId;
        }
      }
    }
  }

  /** With one row per user, the update touches exactly the row found, and a GET afterwards
      returns what the POST returned. */
  lemma UpdateTouchesOnlyTheRowFound(rows: seq<PrivacyRow>, userId: string, filtered: map<string, bool>, now: int)
    requires OneRowPerUser(rows)
    requires FirstRowOf(rows, userId).Some?
    ensures var k := FirstRowOf(rows, userId).value;
            forall j :: 0 <= j < |rows| && j != k ==> UpdateRows(rows, userId, filtered, now)[j] == rows[j]
    ensures FirstRowOf(UpdateRows(rows, userId, filtered, now), userId) == FirstRowOf(rows, userId)
  {
    var after := UpdateRows(rows, userId, filtered, now);
    var k := FirstRowOf(rows, userId).value;
    forall j | 0 <= j < |rows| && j != k
      ensures after[j] == rows[j]
    {
      assert rows[j].userId != userId;
    }
    FirstRowSameUsers(rows, after, userId);
  }

  /** The row found depends on the user column alone. */
  lemma {:induction false} FirstRowSameUsers(rows: seq<PrivacyRow>, other: seq<PrivacyRow>, userId: string)
    requires |rows| == |other|
    requires forall k :: 0 <= k < |rows| ==> rows[k].userId == other[k].userId
    ensures FirstRowOf(other, userId) == FirstRowOf(rows, userId)
  {
    if rows != [] {
      FirstRowSameUsers(rows[1..], other[1..], userId);
    }
  }
}
