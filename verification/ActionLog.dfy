/** `business_rule_actions` as every rule uses it: one row per rule and idempotency key. */
module ActionLog {
  import opened Common

  datatype Attempt = Attempt(ruleId: string, key: string, status: string)

  predicate SameAction(a: Attempt, b: Attempt) { a.ruleId == b.ruleId && a.key == b.key }

  predicate Taken(rows: seq<Attempt>, a: Attempt) {
    exists i :: 0 <= i < |rows| && SameAction(rows[i], a)
  }

  class ActionTable {
    var rows: seq<Attempt>

    /** The new action id, or None on an idempotency clash, which is rolled back. */
    method RecordActionAttempt(a: Attempt) returns (id: Option<nat>)
      modifies this
      ensures id == if Taken(old(rows), a) then None else Some(|old(rows)|)
      ensures rows == if Taken(old(rows), a) then old(rows) else old(rows) + [a]
    {
      for i := 0 to |rows|
        invariant forall j :: 0 <= j < i ==> !SameAction(rows[j], a)
      {
        if SameAction(rows[i], a) {
          return None;
        }
      }
      rows := rows + [a];
      return Some(|rows| - 1);
    }
  }

  /** The rows after some attempts, in whatever order they commit. */
  function RowsAfter(attempts: seq<Attempt>): seq<Attempt> {
    if attempts == [] then []
    else
      var rows, last := RowsAfter(attempts[..|attempts| - 1]), attempts[|attempts| - 1];
      if Taken(rows, last) then rows else rows + [last]
  }

  /** What the `i`-th attempt returned. */
  function Answer(attempts: seq<Attempt>, i: nat): Option<nat>
    requires i < |attempts|
  {
    if Taken(RowsAfter(attempts[..i]), attempts[i]) then None else Some(|RowsAfter(attempts[..i])|)
  }

  lemma {:induction false} RowsAreTheAttempts(attempts: seq<Attempt>, a: Attempt)
    ensures Taken(RowsAfter(attempts), a) <==> Taken(attempts, a)
  {
    if attempts != [] {
      var front, last := attempts[..|attempts| - 1], attempts[|attempts| - 1];
      RowsAreTheAttempts(front, a);
      RowsAreTheAttempts(front, last);
      TakenAppend(front, last, a);
      TakenAppend(RowsAfter(front), last, a);
      assert attempts == front + [last];
      if Taken(front, last) && SameAction(last, a) {
        var i :| 0 <= i < |front| && SameAction(front[i], last);
        assert SameAction(front[i], a);
      }
    }
  }

  lemma {:induction false} TakenAppend(rows: seq<Attempt>, last: Attempt, a: Attempt)
    ensures Taken(rows + [last], a) <==> Taken(rows, a) || SameAction(last, a)
  {
    if SameAction(last, a) {
      assert SameAction((rows + [last])[|rows|], a);
    }
    if Taken(rows, a) {
      var i :| 0 <= i < |rows| && SameAction(rows[i], a);
      assert SameAction((rows + [last])[i], a);
    }
  }

  /** Exactly the first attempt of each rule and key gets an action id, and the id leads to it. */
  lemma {:induction false} FirstAttemptWins(attempts: seq<Attempt>, i: nat)
    requires i < |attempts|
    ensures Answer(attempts, i).Some? <==>
            forall j :: 0 <= j < i ==>
              attempts[j].ruleId != attempts[i].ruleId || attempts[j].key != attempts[i].key
    ensures Answer(attempts, i).Some? ==>
              && Answer(attempts, i).value < |RowsAfter(attempts)|
              && RowsAfter(attempts)[Answer(attempts, i).value] == attempts[i]
  {
    RowsAreTheAttempts(attempts[..i], attempts[i]);
    assert forall j :: 0 <= j < i ==> attempts[..i][j] == attempts[j];
    if Answer(attempts, i).Some? {
      assert attempts[..i + 1][..i] == attempts[..i];
      RowsStay(attempts, i + 1);
    }
  }

  lemma {:induction false} RowsStay(attempts: seq<Attempt>, n: nat)
    requires n <= |attempts|
    ensures RowsAfter(attempts[..n]) <= RowsAfter(attempts)
  {
    if n == |attempts| {
      assert attempts[..n] == attempts;
    } else {
      var front := attempts[..|attempts| - 1];
      assert front[..n] == attempts[..n];
      RowsStay(front, n);
    }
  }
}
