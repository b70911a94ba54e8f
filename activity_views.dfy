/**
 * The activity handlers of views.py (create, rename, delete, list and
 * timer update) as operations on the activity table.
 */
module ActivityViews {
  import opened Base
  import opened Text
  import opened Decimal
  import opened Messages
  import opened Models
  import opened Http

  const AlreadyExists := "activity with such name already exists for this user"
  const NoSuchActivity := "there is no such activity"
  const CastFailed := "error occurred during casting added time to integer"

  predicate Named(x: ActivityRow, user: UserId, name: string) {
    x.user == user && x.name == name
  }

  /** `Activity.objects.filter(user=user, name=name)`. */
  function Matching(rows: seq<ActivityRow>, user: UserId, name: string): (r: seq<ActivityRow>)
    ensures forall x :: x in r <==> x in rows && Named(x, user, name)
    ensures PksIncreasing(rows) ==> PksIncreasing(r)
  {
    Select(rows, (x: ActivityRow) => Named(x, user, name))
  }

  /** The table after deleting every row of `user` called `name`. */
  function Without(rows: seq<ActivityRow>, user: UserId, name: string): (r: seq<ActivityRow>)
    ensures forall x :: x in r <==> x in rows && !Named(x, user, name)
    ensures PksIncreasing(rows) ==> PksIncreasing(r)
  {
    Select(rows, (x: ActivityRow) => !Named(x, user, name))
  }

  /** `Activity.objects.filter(user=user)`. */
  function Owned(rows: seq<ActivityRow>, user: UserId): (r: seq<ActivityRow>)
    ensures forall x :: x in r <==> x in rows && x.user == user
  {
    Select(rows, (x: ActivityRow) => x.user == user)
  }

  /** No user has two activities with the same name. */
  predicate NamesUnique(rows: seq<ActivityRow>) {
    forall i, j :: 0 <= i < j < |rows| && rows[i].user == rows[j].user ==> rows[i].name != rows[j].name
  }

  /**
   * The checks ActivitySerializer makes of the trimmed `name`: not blank,
   * at most 50 characters (`max_length` of the model field), and no NUL
   * character.
   */
  predicate ValidName(name: string) {
    && 0 < |name| <= 50
    && forall k :: 0 <= k < |name| ==> name[k] != '\0'
  }

  /** The last row of a key-ordered filter result carries the largest key: what `.last()` picks. */
  lemma LastMatchHasLargestPk(ms: seq<ActivityRow>)
    requires PksIncreasing(ms) && ms != []
    ensures forall x :: x in ms ==> x.pk <= ms[|ms| - 1].pk
  {
    forall x | x in ms ensures x.pk <= ms[|ms| - 1].pk {
      var k :| 0 <= k < |ms| && ms[k] == x;
      assert k == |ms| - 1 || ms[k].pk < ms[|ms| - 1].pk;
    }
  }

  /** Create admits a name only when the user has no activity of that name, so it keeps names unique. */
  lemma CreateKeepsNamesUnique(rows: seq<ActivityRow>, row: ActivityRow)
    requires NamesUnique(rows) && Matching(rows, row.user, row.name) == []
    ensures NamesUnique(rows + [row])
  {
    var r := rows + [row];
    forall i, j | 0 <= i < j < |r| && r[i].user == r[j].user ensures r[i].name != r[j].name {
      if j == |rows| {
        assert r[i] in rows && r[i] !in Matching(rows, row.user, row.name);
      }
    }
  }

  /**
   * As written, create checks the posted name but saves the trimmed one:
   * a user who has "math" and posts " math" gets a second "math".
   */
  lemma CreateCanDuplicateNames()
    ensures var rows := [ActivityRow(1, 7, "math", NoTime)];
      && NamesUnique(rows)
      && Matching(rows, 7, " math") == []
      && Trim(" math") == "math"
      && ValidName(Trim(" math"))
      && !NamesUnique(rows + [ActivityRow(2, 7, Trim(" math"), NoTime)])
  {
    var rows := [ActivityRow(1, 7, "math", NoTime)];
    var m := Matching(rows, 7, " math");
    TrimLeadingSpace();
    var r := rows + [ActivityRow(2, 7, "math", NoTime)];
    assert r[0].user == r[1].user && r[0].name == r[1].name;
  }

  lemma TrimLeadingSpace()
    ensures Trim(" math") == "math" && ValidName("math")
  {
    TrimStartStep();
    TrimEndStep();
    MathIsValidName();
  }

  lemma TrimStartStep()
    ensures TrimStart(" math") == "math"
  {
    var padded, name := " math", "math";
    assert padded[0] == ' ' && IsSpace(' ');
    assert padded[1..] == name;
    assert name[0] == 'm' && !IsSpace('m');
  }

  lemma TrimEndStep()
    ensures TrimEnd("math") == "math"
  {
    var name := "math";
    assert name[|name| - 1] == 'h' && !IsSpace('h');
  }

  lemma MathIsValidName()
    ensures ValidName("math")
  {
    var name := "math";
    assert forall k :: 0 <= k < |name| ==> name[k] in {'m', 'a', 't', 'h'};
  }

  /** Rename does not look at `new_name`: two activities of one user can end up with one name. */
  lemma RenameCanDuplicateNames()
    ensures var rows := [ActivityRow(1, 7, "math", NoTime), ActivityRow(2, 7, "physics", NoTime)];
      && NamesUnique(rows)
      && |Matching(rows, 7, "math")| == 1
      && !NamesUnique(ReplaceRow(rows, rows[0].(name := "physics")))
  {
    var rows := [ActivityRow(1, 7, "math", NoTime), ActivityRow(2, 7, "physics", NoTime)];
    assert rows[0] in Matching(rows, 7, "math");
    assert rows[1] !in Matching(rows, 7, "math");
    assert Matching(rows, 7, "math") == [rows[0]] by {
      SameRowsSameTable(Matching(rows, 7, "math"), [rows[0]]);
    }
    var r := ReplaceRow(rows, rows[0].(name := "physics"));
    assert r[0].name == r[1].name == "physics";
  }

  /** A rename rewrites the name of the one matched row; every other row and field is kept. */
  lemma RenameChangesOnlyName(rows: seq<ActivityRow>, row: ActivityRow, newName: string)
    requires PksIncreasing(rows) && row in rows
    ensures var r := ReplaceRow(rows, row.(name := newName));
      && |r| == |rows|
      && (forall i :: 0 <= i < |rows| && rows[i] != row ==> r[i] == rows[i])
      && (forall i :: 0 <= i < |rows| && rows[i] == row ==> r[i] == rows[i].(name := newName))
  {
    forall i | 0 <= i < |rows| && rows[i].pk == row.pk ensures rows[i] == row {
      PkIdentifiesRow(rows, rows[i], row);
    }
  }

  /**
   * CreateActivityView.post as written: the existence check uses the
   * posted `name`, while the serializer validates and saves `Trim(name)`.
   */
  method CreateActivity(db: ActivityTable, requester: User, name: string) returns (resp: Response)
    requires db.Valid()
    modifies db
    ensures db.Valid()
    ensures Matching(old(db.rows), requester.id, name) != [] ==>
      resp == Response(BAD_REQUEST, MessageBody(AlreadyExists)) && db.rows == old(db.rows)
    ensures Matching(old(db.rows), requester.id, name) == [] && !ValidName(Trim(name)) ==>
      resp == Response(BAD_REQUEST, FieldErrors("name")) && db.rows == old(db.rows)
    ensures Matching(old(db.rows), requester.id, name) == [] && ValidName(Trim(name)) ==>
      && resp == Response(OK, ActivityCreated(Trim(name), requester.username))
      && db.rows == old(db.rows) + [ActivityRow(old(db.nextPk), requester.id, Trim(name), NoTime)]
  {
    var query := Matching(db.rows, requester.id, name);
    if |query| > 0 {
      return Response(BAD_REQUEST, MessageBody(AlreadyExists));
    }
    var cleaned := Trim(name);
    if !ValidName(cleaned) {
      return Response(BAD_REQUEST, FieldErrors("name"));
    }
    var row := db.Insert(requester.id, cleaned);
    resp := Response(OK, ActivityCreated(row.name, requester.username));
  }

  /**
   * Create with the existence check on the name that is saved, the
   * trimmed one: then no user ever gets two activities of one name.
   */
  method CreateActivityChecked(db: ActivityTable, requester: User, name: string) returns (resp: Response)
    requires db.Valid()
    modifies db
    ensures db.Valid()
    ensures NamesUnique(old(db.rows)) ==> NamesUnique(db.rows)
    ensures Matching(old(db.rows), requester.id, Trim(name)) != [] ==>
      resp == Response(BAD_REQUEST, MessageBody(AlreadyExists)) && db.rows == old(db.rows)
    ensures Matching(old(db.rows), requester.id, Trim(name)) == [] && !ValidName(Trim(name)) ==>
      resp == Response(BAD_REQUEST, FieldErrors("name")) && db.rows == old(db.rows)
    ensures Matching(old(db.rows), requester.id, Trim(name)) == [] && ValidName(Trim(name)) ==>
      && resp == Response(OK, ActivityCreated(Trim(name), requester.username))
      && db.rows == old(db.rows) + [ActivityRow(old(db.nextPk), requester.id, Trim(name), NoTime)]
  {
    var cleaned := Trim(name);
    var query := Matching(db.rows, requester.id, cleaned);
    if |query| > 0 {
      return Response(BAD_REQUEST, MessageBody(AlreadyExists));
    }
    if !ValidName(cleaned) {
      return Response(BAD_REQUEST, FieldErrors("name"));
    }
    ghost var before := db.rows;
    var row := db.Insert(requester.id, cleaned);
    if NamesUnique(before) {
      CreateKeepsNamesUnique(before, row);
    }
    resp := Response(OK, ActivityCreated(row.name, requester.username));
  }

  /**
   * UpdateActivityView.patch: `get(user, name=old_name)` raises unless
   * exactly one row matches (the framework then answers 500); the match
   * is renamed without any check of `new_name`.
   */
  method UpdateActivity(db: ActivityTable, requester: User, oldName: string, newName: string)
    returns (resp: Response)
    requires db.Valid()
    modifies db
    ensures db.Valid()
    ensures |Matching(old(db.rows), requester.id, oldName)| != 1 ==>
      resp == Response(SERVER_ERROR, Uncaught) && db.rows == old(db.rows)
    ensures |Matching(old(db.rows), requester.id, oldName)| == 1 ==>
      var row := Matching(old(db.rows), requester.id, oldName)[0];
      && db.rows == ReplaceRow(old(db.rows), row.(name := newName))
      && resp == Response(OK, ActivityRenamed(newName, requester.username))
  {
    var found := Matching(db.rows, requester.id, oldName);
    if |found| != 1 {
      return Response(SERVER_ERROR, Uncaught);
    }
    assert found[0] in found;
    var activity := new Activity.FromRow(found[0]);
    activity.name := newName;
    var saved := activity.Save(db);
    resp := Response(OK, ActivityRenamed(activity.name, requester.username));
  }

  /** DeleteActivityView.delete: deletes the matching rows one at a time. */
  method DeleteActivity(db: ActivityTable, requester: User, name: string) returns (resp: Response)
    requires db.Valid()
    modifies db
    ensures db.Valid()
    ensures Matching(old(db.rows), requester.id, name) == [] ==>
      resp == Response(BAD_REQUEST, MessageBody(NoSuchActivity)) && db.rows == old(db.rows)
    ensures Matching(old(db.rows), requester.id, name) != [] ==>
      && resp == Response(OK, MessageBody("activity " + name + " has been deleted"))
      && db.rows == Without(old(db.rows), requester.id, name)
  {
    var activities := Matching(db.rows, requester.id, name);
    if |activities| == 0 {
      return Response(BAD_REQUEST, MessageBody(NoSuchActivity));
    }
    var i := 0;
    while i < |activities|
      invariant 0 <= i <= |activities|
      invariant db.Valid()
      invariant forall x :: x in db.rows <==> x in old(db.rows) && x !in activities[..i]
    {
      var doomed := activities[i];
      assert doomed in old(db.rows);
      forall x | x in db.rows ensures x.pk == doomed.pk <==> x == doomed {
        if x.pk == doomed.pk { PkIdentifiesRow(old(db.rows), x, doomed); }
      }
      assert activities[..i + 1] == activities[..i] + [doomed];
      db.Delete(doomed.pk);
      i := i + 1;
    }
    assert activities[..i] == activities;
    SameRowsSameTable(db.rows, Without(old(db.rows), requester.id, name));
    resp := Response(OK, MessageBody("activity " + name + " has been deleted"));
  }

  /** One list entry: the activity's name and counters, with the owner's username. */
  function EntryOf(row: ActivityRow, username: string): ActivityEntry {
    ActivityEntry(row.name, username, row.counters.today, row.counters.week,
                  row.counters.month, row.counters.total)
  }

  /**
   * GetActivitiesListView.get: one entry per activity of the requester, in
   * query order. Every listed activity belongs to the requester, so
   * `activity.user.username` is the requester's username.
   */
  method GetActivitiesList(db: ActivityTable, requester: User) returns (resp: Response)
    ensures resp.status == OK && resp.body.ActivityList?
    ensures var owned := Owned(db.rows, requester.id);
      && |resp.body.entries| == |owned|
      && forall i :: 0 <= i < |owned| ==> resp.body.entries[i] == EntryOf(owned[i], requester.username)
  {
    var activities := Owned(db.rows, requester.id);
    var allActivities: seq<ActivityEntry> := [];
    var i := 0;
    while i < |activities|
      invariant 0 <= i <= |activities|
      invariant |allActivities| == i
      invariant forall k :: 0 <= k < i ==> allActivities[k] == EntryOf(activities[k], requester.username)
    {
      var activity := activities[i];
      var entry := ActivityEntry(activity.name, requester.username,
                                 activity.counters.today, activity.counters.week,
                                 activity.counters.month, activity.counters.total);
      allActivities := allActivities + [entry];
      i := i + 1;
    }
    resp := Response(OK, ActivityList(allActivities));
  }

  /**
   * TimerUpdate.post: `int()` of the submitted time is tried first (the
   * cast is the parameter `castInt`); then the last matching activity, the
   * one with the largest key, gets `add_time`.
   */
  method TimerUpdate(db: ActivityTable, requester: User, name: string, time: Value, castInt: Value -> Option<int>)
    returns (resp: Response)
    requires db.Valid()
    modifies db
    ensures db.Valid()
    ensures castInt(time).None? ==>
      resp == Response(BAD_REQUEST, MessageBody(CastFailed)) && db.rows == old(db.rows)
    ensures castInt(time).Some? && Matching(old(db.rows), requester.id, name) == [] ==>
      resp == Response(BAD_REQUEST, MessageBody(NoSuchActivity)) && db.rows == old(db.rows)
    ensures castInt(time).Some? && Matching(old(db.rows), requester.id, name) != [] ==>
      var ms := Matching(old(db.rows), requester.id, name);
      var last := ms[|ms| - 1];
      var minutes := castInt(time).value;
      var bumped := Bump(last.counters, minutes);
      && (forall x :: x in ms ==> x.pk <= last.pk)
      && (NonNegative(bumped) ==>
            && db.rows == ReplaceRow(old(db.rows), last.(counters := bumped))
            && resp == Response(OK, MessageBody(IntToString(minutes) + " minutes have been added for " + name + " activity")))
      && (!NonNegative(bumped) ==> resp == Response(SERVER_ERROR, Uncaught) && db.rows == old(db.rows))
  {
    var minutesSpent := castInt(time);
    if minutesSpent.None? {
      return Response(BAD_REQUEST, MessageBody(CastFailed));
    }
    var activities := Matching(db.rows, requester.id, name);
    if |activities| == 0 {
      return Response(BAD_REQUEST, MessageBody(NoSuchActivity));
    }
    LastMatchHasLargestPk(activities);
    var lastRow := activities[|activities| - 1];
    assert lastRow in activities;
    var activity := new Activity.FromRow(lastRow);
    var saved := activity.AddTime(minutesSpent.value, db);
    if !saved {
      return Response(SERVER_ERROR, Uncaught);
    }
    resp := Response(OK, MessageBody(IntToString(minutesSpent.value) + " minutes have been added for "
                                     + activity.name + " activity"));
  }
}
