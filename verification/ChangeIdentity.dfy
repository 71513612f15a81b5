/** The change ids that deduplication relies on, and when two changes get the same one. */
module ChangeIdentity {
  import opened Common
  import opened RuleText

  /** The `source` block of a change record; an empty gtid and a zero time count as missing. */
  datatype Source = Source(
    gtid: string,
    file: Option<string>,
    pos: Option<int>,
    row: Option<int>,
    table: Option<string>,
    tsMs: int,
    serverId: Option<int>)

  /** What an id is made of, by precedence. */
  datatype Coordinates =
    | Gtid(gtid: string, row: int)
    | Binlog(file: string, pos: int, row: int)
    | Fallback(table: string, ts: int, server: int)

  function Or<T>(value: Option<T>, otherwise: T): T { if value.Some? then value.value else otherwise }

  function CoordinatesOf(source: Source, tableName: string, tsMs: int): Option<Coordinates> {
    var row, ts := Or(source.row, 0), if tsMs != 0 then tsMs else source.tsMs;
    if source.gtid != [] then Some(Gtid(source.gtid, row))
    else if source.file.Some? && source.pos.Some? then Some(Binlog(source.file.value, source.pos.value, row))
    else if ts != 0
    then Some(Fallback(if tableName != [] then tableName else Or(source.table, "unknown"), ts, Or(source.serverId, 0)))
    else None
  }

  function IdText(c: Coordinates): (id: string)
    ensures id != []
  {
    match c
    case Gtid(gtid, row) => "gtid:" + gtid + ":" + PrintInt(row)
    case Binlog(file, pos, row) => file + ":" + PrintInt(pos) + ":" + PrintInt(row)
    case Fallback(table, ts, server) => table + ":" + PrintInt(ts) + ":" + PrintInt(server)
  }

  /**
   * No source block, or an empty one, gives no id. A GTID goes before a binlog position, and that
   * before table, time and server.
   */
  function GenerateSourceChangeId(source: Option<Source>, tableName: string, tsMs: int): (id: Option<string>)
    ensures id.Some? ==> id.value != []
    ensures id.None? <==>
              || source.None?
              || (source.value.gtid == [] && (source.value.file.None? || source.value.pos.None?)
                  && tsMs == 0 && source.value.tsMs == 0)
    ensures source.Some? && source.value.gtid != [] ==>
              id == Some("gtid:" + source.value.gtid + ":" + PrintInt(Or(source.value.row, 0)))
    ensures source.Some? && source.value.gtid == [] && source.value.file.Some? && source.value.pos.Some? ==>
              id == Some(source.value.file.value + ":" + PrintInt(source.value.pos.value)
                         + ":" + PrintInt(Or(source.value.row, 0)))
    ensures source.Some? && source.value.gtid == [] && (source.value.file.None? || source.value.pos.None?)
              && id.Some? ==>
              id == Some((if tableName != [] then tableName else Or(source.value.table, "unknown"))
                         + ":" + PrintInt(if tsMs != 0 then tsMs else source.value.tsMs)
                         + ":" + PrintInt(Or(source.value.serverId, 0)))
  {
    if source.None? then None
    else
      match CoordinatesOf(source.value, tableName, tsMs)
      case None => None
      case Some(c) => Some(IdText(c))
  }

  lemma {:induction false} LastColon(a: string, b: string, x: string, y: string)
    requires ':' !in x && ':' !in y && a + ":" + x == b + ":" + y
    ensures a == b && x == y
  {
    var s, t := a + ":" + x, b + ":" + y;
    assert s[|a|] == ':' && t[|b|] == ':';
    assert forall i :: |a| < i < |s| ==> s[i] == x[i - |a| - 1];
    assert forall i :: |b| < i < |t| ==> t[i] == y[i - |b| - 1];
    assert a == s[..|a|] && b == t[..|b|];
    assert x == s[|a| + 1..] && y == t[|b| + 1..];
  }

  lemma {:induction false} NumbersHaveNoColon(n: int)
    ensures ':' !in PrintInt(n)
  {
  }

  lemma {:induction false} LastNumber(a: string, b: string, m: int, n: int)
    ensures a + ":" + PrintInt(m) == b + ":" + PrintInt(n) <==> a == b && m == n
  {
    if a + ":" + PrintInt(m) == b + ":" + PrintInt(n) {
      NumbersHaveNoColon(m);
      NumbersHaveNoColon(n);
      LastColon(a, b, PrintInt(m), PrintInt(n));
      ParsePrintInt(m);
      ParsePrintInt(n);
    }
  }

  /** An id as text and numbers: a named place with two numbers, or a transaction with one. */
  function Place(c: Coordinates): (string, int, int)
    requires !c.Gtid?
  {
    if c.Binlog? then (c.file, c.pos, c.row) else (c.table, c.ts, c.server)
  }

  /** The transaction's text reads like the place's. */
  predicate ReadsAlike(t: Coordinates, c: Coordinates)
    requires t.Gtid? && !c.Gtid?
  {
    "gtid:" + t.gtid == Place(c).0 + ":" + PrintInt(Place(c).1) && t.row == Place(c).2
  }

  lemma {:induction false} IdParts(c: Coordinates)
    ensures c.Gtid? ==> IdText(c) == ("gtid:" + c.gtid) + ":" + PrintInt(c.row)
    ensures !c.Gtid? ==> IdText(c) == (Place(c).0 + ":" + PrintInt(Place(c).1)) + ":" + PrintInt(Place(c).2)
  {
  }

  /**
   * Two changes share an id exactly when their coordinates do, or a table with the same numbers
   * is named like a binlog file, or a transaction reads like a place.
   */
  lemma {:induction false} SameIdIff(a: Coordinates, b: Coordinates)
    ensures IdText(a) == IdText(b)
       <==> if a.Gtid? && b.Gtid? then a == b
            else if !a.Gtid? && !b.Gtid? then Place(a) == Place(b)
            else if a.Gtid? then ReadsAlike(a, b)
            else ReadsAlike(b, a)
  {
    IdParts(a);
    IdParts(b);
    hide IdText, PrintInt;
    var headA := if a.Gtid? then "gtid:" + a.gtid else Place(a).0 + ":" + PrintInt(Place(a).1);
    var headB := if b.Gtid? then "gtid:" + b.gtid else Place(b).0 + ":" + PrintInt(Place(b).1);
    LastNumber(headA, headB, if a.Gtid? then a.row else Place(a).2, if b.Gtid? then b.row else Place(b).2);
    if !a.Gtid? && !b.Gtid? {
      LastNumber(Place(a).0, Place(b).0, Place(a).1, Place(b).1);
    } else if a.Gtid? && b.Gtid? {
      assert headA[5..] == a.gtid && headB[5..] == b.gtid;
    }
  }

  /** Coordinates of one kind are told apart by their ids. */
  lemma {:induction false} SameKindSameId(a: Coordinates, b: Coordinates)
    requires a.Gtid? == b.Gtid? && a.Binlog? == b.Binlog?
    ensures IdText(a) == IdText(b) <==> a == b
  {
    hide IdText;
    SameIdIff(a, b);
  }

  /**
   * A transaction is mistaken for a place exactly when the place's name is `gtid`, or starts with
   * `gtid:`, and the rest matches.
   */
  lemma {:induction false} ReadsAlikeIff(t: Coordinates, c: Coordinates)
    requires t.Gtid? && !c.Gtid?
    ensures var (name, number, last) := Place(c);
            && (ReadsAlike(t, c)
                <==> t.row == last
                     && ((name == "gtid" && t.gtid == PrintInt(number))
                         || (|name| >= 5 && name[..5] == "gtid:" && t.gtid == name[5..] + ":" + PrintInt(number))))
  {
    hide PrintInt;
    var (name, number, last) := Place(c);
    var left, right := "gtid:" + t.gtid, name + ":" + PrintInt(number);
    assert right[|name|] == ':' && right[..|name|] == name && right[|name| + 1..] == PrintInt(number);
    assert left[..4] == "gtid" && left[4] == ':' && left[5..] == t.gtid && left[..5] == "gtid:";
    assert forall i :: 0 <= i < 4 ==> left[i] == left[..4][i];
    if |name| >= 5 {
      assert right[..5] == name[..5] && right[5..] == name[5..] + ":" + PrintInt(number);
    } else if |name| == 4 {
      assert right[..4] == name && right[5..] == PrintInt(number);
    }
    assert |name| >= 4 ==> left == left[..5] + left[5..] && right == right[..5] + right[5..];
  }

  /** Changes of different kinds that get one id: transaction 7 and a file `gtid`, a file and a table of one name. */
  lemma {:induction false} CollisionExamples()
    ensures IdText(Gtid("7", 0)) == IdText(Binlog("gtid", 7, 0))
    ensures IdText(Binlog("orders", 7, 0)) == IdText(Fallback("orders", 7, 0))
  {
    hide IdText;
    SameIdIff(Gtid("7", 0), Binlog("gtid", 7, 0));
    SameIdIff(Binlog("orders", 7, 0), Fallback("orders", 7, 0));
    assert PrintInt(7) == "7";
    ReadsAlikeIff(Gtid("7", 0), Binlog("gtid", 7, 0));
  }
}
