/**
 * models.py: the Activity model with its four minute counters, the
 * activity table the ORM reads and writes, and the user row.
 */
module Models {
  import opened Base
  import opened Messages

  /** The four counters of an activity, in minutes. */
  datatype Counters = Counters(today: int, week: int, month: int, total: int)

  /** Every counter of a new activity starts at zero. */
  const NoTime: Counters := Counters(0, 0, 0, 0)

  /**
   * The counters are declared as PositiveIntegerField: the database keeps
   * a CHECK that each is at least zero.
   */
  predicate NonNegative(c: Counters) {
    c.today >= 0 && c.week >= 0 && c.month >= 0 && c.total >= 0
  }

  /** The counters after `add_time(minutes)`: each grows by the same amount. */
  function Bump(c: Counters, minutes: int): Counters {
    Counters(c.today + minutes, c.week + minutes, c.month + minutes, c.total + minutes)
  }

  /** `add_time` keeps every pairwise difference between the counters. */
  lemma BumpKeepsDifferences(c: Counters, minutes: int)
    ensures var r := Bump(c, minutes);
      && r.week - r.today == c.week - c.today
      && r.month - r.today == c.month - c.today
      && r.total - r.today == c.total - c.today
      && r.month - r.week == c.month - c.week
      && r.total - r.week == c.total - c.week
      && r.total - r.month == c.total - c.month
  {
  }

  /** Two calls of `add_time` add up to one call with the sum. */
  lemma BumpComposes(c: Counters, a: int, b: int)
    ensures Bump(Bump(c, a), b) == Bump(c, a + b)
  {
  }

  /** A non-negative amount keeps the counters non-negative. */
  lemma BumpKeepsNonNegative(c: Counters, minutes: int)
    requires NonNegative(c) && minutes >= 0
    ensures NonNegative(Bump(c, minutes))
  {
  }

  /** `add_time` has no guard: a negative amount drives a fresh activity below zero. */
  lemma NegativeMinutesGoBelowZero(minutes: int)
    requires minutes < 0
    ensures NonNegative(NoTime) && !NonNegative(Bump(NoTime, minutes))
  {
  }

  /** `Activity.__str__`: the activity name, " - ", the owner's username. */
  function ActivityText(name: string, username: string): string {
    name + " - " + username
  }

  /** For one activity name, the text tells the owners apart. */
  lemma ActivityTextDeterminesOwner(name: string, u1: string, u2: string)
    ensures ActivityText(name, u1) == ActivityText(name, u2) <==> u1 == u2
  {
    if ActivityText(name, u1) == ActivityText(name, u2) {
      var k := |name| + 3;
      assert ActivityText(name, u1)[k..] == u1;
      assert ActivityText(name, u2)[k..] == u2;
    }
  }

  /** One row of the activity table. `user` is the owner's primary key. */
  datatype ActivityRow = ActivityRow(pk: nat, user: UserId, name: string, counters: Counters)

  /** Rows are kept in primary-key order, keys strictly increasing. */
  predicate PksIncreasing(rows: seq<ActivityRow>) {
    forall i, j :: 0 <= i < j < |rows| ==> rows[i].pk < rows[j].pk
  }

  predicate HasPk(rows: seq<ActivityRow>, pk: nat) {
    exists i :: 0 <= i < |rows| && rows[i].pk == pk
  }

  /** A query filter: the rows satisfying `keep`, in table order. */
  function Select(rows: seq<ActivityRow>, keep: ActivityRow -> bool): (r: seq<ActivityRow>)
    ensures forall x :: x in r <==> x in rows && keep(x)
    ensures |r| <= |rows|
    ensures PksIncreasing(rows) ==> PksIncreasing(r)
  {
    if rows == [] then []
    else
      var rest := Select(rows[1..], keep);
      HeadBelowTail(rows);
      if keep(rows[0]) then [rows[0]] + rest else rest
  }

  /** In a key-ordered table the first row has a smaller key than every later row. */
  lemma HeadBelowTail(rows: seq<ActivityRow>)
    requires rows != []
    ensures PksIncreasing(rows) ==> forall x :: x in rows[1..] ==> rows[0].pk < x.pk
  {
    if PksIncreasing(rows) {
      forall x | x in rows[1..] ensures rows[0].pk < x.pk {
        var k :| 0 <= k < |rows[1..]| && rows[1..][k] == x;
        assert rows[k + 1] == x;
      }
    }
  }

  /** In a key-ordered table a row is identified by its key. */
  lemma PkIdentifiesRow(rows: seq<ActivityRow>, x: ActivityRow, y: ActivityRow)
    requires PksIncreasing(rows) && x in rows && y in rows && x.pk == y.pk
    ensures x == y
  {
    var i :| 0 <= i < |rows| && rows[i] == x;
    var j :| 0 <= j < |rows| && rows[j] == y;
    assert !(i < j) && !(j < i);
  }

  lemma TailMembers(rows: seq<ActivityRow>)
    requires PksIncreasing(rows) && rows != []
    ensures forall x :: x in rows[1..] <==> x in rows && x != rows[0]
  {
    forall x | x in rows && x != rows[0] ensures x in rows[1..] {
      var k :| 0 <= k < |rows| && rows[k] == x;
      assert k != 0;
      assert rows[1..][k - 1] == x;
    }
    forall x | x in rows[1..] ensures x != rows[0] {
      var k :| 0 <= k < |rows[1..]| && rows[1..][k] == x;
      assert rows[k + 1] == x;
    }
  }

  /** Two key-ordered tables holding the same rows are the same table. */
  lemma {:induction false} SameRowsSameTable(a: seq<ActivityRow>, b: seq<ActivityRow>)
    requires PksIncreasing(a) && PksIncreasing(b)
    requires forall x :: x in a <==> x in b
    ensures a == b
    decreases |a|
  {
    assert a != [] ==> a[0] in b;
    assert b != [] ==> b[0] in a;
    if a != [] && b != [] {
      var i :| 0 <= i < |b| && b[i] == a[0];
      var j :| 0 <= j < |a| && a[j] == b[0];
      assert a[0].pk <= a[j].pk && b[0].pk <= b[i].pk;
      assert i == 0;
      TailMembers(a);
      TailMembers(b);
      SameRowsSameTable(a[1..], b[1..]);
      assert a == [a[0]] + a[1..] && b == [b[0]] + b[1..];
    }
  }

  /** `save()` of an existing row: the row with the same key is overwritten. */
  function ReplaceRow(rows: seq<ActivityRow>, row: ActivityRow): (r: seq<ActivityRow>)
    ensures |r| == |rows|
    ensures forall i :: 0 <= i < |rows| ==> r[i] == if rows[i].pk == row.pk then row else rows[i]
    ensures forall i :: 0 <= i < |rows| ==> r[i].pk == rows[i].pk
    ensures PksIncreasing(rows) ==> PksIncreasing(r)
    ensures forall x :: x in r <==> (x in rows && x.pk != row.pk) || (x == row && HasPk(rows, row.pk))
  {
    seq(|rows|, i requires 0 <= i < |rows| => if rows[i].pk == row.pk then row else rows[i])
  }

  /** The activity table. */
  class ActivityTable {
    var rows: seq<ActivityRow>
    var nextPk: nat

    ghost predicate Valid()
      reads this
    {
      && PksIncreasing(rows)
      && (forall x :: x in rows ==> x.pk < nextPk)
      && (forall x :: x in rows ==> NonNegative(x.counters))
    }

    constructor ()
      ensures Valid() && rows == []
    {
      rows := [];
      nextPk := 1;
    }

    /** Inserts a new activity, with every counter at zero. */
    method Insert(user: UserId, name: string) returns (row: ActivityRow)
      requires Valid()
      modifies this
      ensures Valid()
      ensures row == ActivityRow(old(nextPk), user, name, NoTime)
      ensures rows == old(rows) + [row]
      ensures !HasPk(old(rows), row.pk)
    {
      row := ActivityRow(nextPk, user, name, NoTime);
      rows := rows + [row];
      nextPk := nextPk + 1;
    }

    /**
     * Writes an existing row back. The database refuses a row with a
     * negative counter (an IntegrityError) and keeps the table as it was.
     */
    method Update(row: ActivityRow) returns (saved: bool)
      requires Valid() && HasPk(rows, row.pk)
      modifies this
      ensures Valid() && nextPk == old(nextPk)
      ensures saved <==> NonNegative(row.counters)
      ensures rows == if saved then ReplaceRow(old(rows), row) else old(rows)
    {
      saved := NonNegative(row.counters);
      if saved {
        rows := ReplaceRow(rows, row);
      }
    }

    /** Deletes the row with the given key, if any. */
    method Delete(pk: nat)
      requires Valid()
      modifies this
      ensures Valid() && nextPk == old(nextPk)
      ensures rows == Select(old(rows), (x: ActivityRow) => x.pk != pk)
    {
      rows := Select(rows, (x: ActivityRow) => x.pk != pk);
    }
  }

  /** An Activity instance loaded from its row; `save()` writes it back. */
  class Activity {
    const pk: nat
    var user: UserId
    var name: string
    var minutesSpentToday: int
    var minutesSpentThisWeek: int
    var minutesSpentThisMonth: int
    var minutesSpentInTotal: int

    constructor FromRow(row: ActivityRow)
      ensures Row() == row
    {
      pk := row.pk;
      user := row.user;
      name := row.name;
      minutesSpentToday := row.counters.today;
      minutesSpentThisWeek := row.counters.week;
      minutesSpentThisMonth := row.counters.month;
      minutesSpentInTotal := row.counters.total;
    }

    function TimeSpent(): Counters
      reads this
    {
      Counters(minutesSpentToday, minutesSpentThisWeek, minutesSpentThisMonth, minutesSpentInTotal)
    }

    function Row(): ActivityRow
      reads this
    {
      ActivityRow(pk, user, name, TimeSpent())
    }

    /** `save()`: `saved` is false where the database raises. */
    method Save(db: ActivityTable) returns (saved: bool)
      requires db.Valid() && HasPk(db.rows, pk)
      modifies db
      ensures db.Valid() && db.nextPk == old(db.nextPk)
      ensures saved <==> NonNegative(TimeSpent())
      ensures db.rows == if saved then ReplaceRow(old(db.rows), Row()) else old(db.rows)
    {
      saved := db.Update(Row());
    }

    /**
     * `add_time`: each counter grows by `minutes`, nothing else of the
     * instance changes, and the instance is saved. The save fails
     * (`saved` is false, the table unchanged) when a counter would go
     * below zero.
     */
    method AddTime(minutes: int, db: ActivityTable) returns (saved: bool)
      requires db.Valid() && HasPk(db.rows, pk)
      modifies this, db
      ensures TimeSpent() == Bump(old(TimeSpent()), minutes)
      ensures name == old(name) && user == old(user)
      ensures db.Valid() && db.nextPk == old(db.nextPk)
      ensures saved <==> NonNegative(TimeSpent())
      ensures db.rows == if saved then ReplaceRow(old(db.rows), Row()) else old(db.rows)
    {
      minutesSpentToday := minutesSpentToday + minutes;
      minutesSpentThisWeek := minutesSpentThisWeek + minutes;
      minutesSpentThisMonth := minutesSpentThisMonth + minutes;
      minutesSpentInTotal := minutesSpentInTotal + minutes;
      saved := Save(db);
    }
  }

  /** A keyword value handed to the user model: the Python values the source passes. */
  datatype Value = Bool(b: bool) | Int(i: int) | Str(s: string) | NoneValue

  /** A stored email-confirmation token (a UUID). */
  datatype Uuid = Uuid(bits: nat)

  /**
   * One row of the user table. `extraFields` holds the remaining model
   * fields (is_staff, is_superuser, is_premium, ...) by name.
   * `emailConfirmed` and `emailConfirmationToken` are used by the views
   * but not declared in models.py; they are supplied here.
   */
  datatype User = User(
    id: UserId,
    username: string,
    email: string,
    dateOfBirth: string,
    country: string,
    password: string,
    extraFields: map<string, Value>,
    emailConfirmed: bool,
    emailConfirmationToken: Option<Uuid>)

  /** The user table. */
  class UserTable {
    var users: seq<User>

    ghost predicate Valid()
      reads this
    {
      forall i, j :: 0 <= i < j < |users| ==> users[i].id != users[j].id
    }

    constructor (users: seq<User>)
      requires forall i, j :: 0 <= i < j < |users| ==> users[i].id != users[j].id
      ensures Valid() && this.users == users
    {
      this.users := users;
    }

    /** `user.save()`: overwrites row `i` with the instance. */
    method Save(i: nat, u: User)
      requires Valid() && i < |users| && users[i].id == u.id
      modifies this
      ensures Valid()
      ensures users == old(users)[i := u]
    {
      users := users[i := u];
    }
  }
}
