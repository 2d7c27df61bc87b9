/**
 * The `PlayerStatistics` record (aw_api/dataobjects/player.py): nine fields,
 * lookup of a field by its name (`p["winrate"]`) and the hand-written
 * equality with its None guards. Floats are `real`, so equality on them is
 * ordinary equality of numbers.
 */
module Player {
  import opened Common

  datatype PlayerStatistics = PlayerStatistics(
    winrate: real,
    battles: int,
    damage: real,
    clantag: Option<string>,
    battalion_full: Option<string>,
    average_spotting: real,
    average_kills: real,
    average_level: Option<real>,
    nickname: string)

  /** The attribute names of the record, in declaration order. */
  const FieldNames: seq<string> := ["winrate", "battles", "damage", "clantag", "battalion_full",
                                    "average_spotting", "average_kills", "average_level", "nickname"]

  function OptText(o: Option<string>): Value {
    match o
    case None => Null
    case Some(s) => Text(s)
  }

  function OptNum(o: Option<real>): Value {
    match o
    case None => Null
    case Some(x) => Num(x)
  }

  /**
   * `p[name]`, which is `getattr(p, name)`: the value of the field of that
   * name. Any other name is None here: the record's methods and inherited
   * attributes, which `getattr` would also find, are not modelled.
   */
  function GetItem(p: PlayerStatistics, name: string): (r: Option<Value>)
    ensures r.Some? <==> name in FieldNames
  {
    if name == "winrate" then Some(Num(p.winrate))
    else if name == "battles" then Some(Int(p.battles))
    else if name == "damage" then Some(Num(p.damage))
    else if name == "clantag" then Some(OptText(p.clantag))
    else if name == "battalion_full" then Some(OptText(p.battalion_full))
    else if name == "average_spotting" then Some(Num(p.average_spotting))
    else if name == "average_kills" then Some(Num(p.average_kills))
    else if name == "average_level" then Some(OptNum(p.average_level))
    else if name == "nickname" then Some(Text(p.nickname))
    else None
  }

  /**
   * The None guard used for the optional fields: an absent value equals only
   * an absent value (`is`), a present one compares by value (`==`).
   */
  function GuardedEq<T(==)>(mine: Option<T>, theirs: Option<T>): (r: bool)
    ensures r <==> mine == theirs
  {
    if mine.None? then theirs.None? else mine == theirs
  }

  /**
   * `p == other`: false for an object of another class, otherwise the
   * conjunction over all nine fields; it holds exactly when the other object
   * is a record with the same fields.
   */
  function Equals(p: PlayerStatistics, other: Instance<PlayerStatistics>): (r: bool)
    ensures r <==> other == Same(p)
  {
    match other
    case Foreign => false
    case Same(q) =>
      var clantag := GuardedEq(p.clantag, q.clantag);
      var battalion_full := GuardedEq(p.battalion_full, q.battalion_full);
      var average_level := GuardedEq(p.average_level, q.average_level);
      q.winrate == p.winrate
      && q.battles == p.battles
      && q.damage == p.damage
      && clantag
      && battalion_full
      && q.average_spotting == p.average_spotting
      && q.average_kills == p.average_kills
      && average_level
      && q.nickname == p.nickname
  }

  /** Equality is reflexive and symmetric, and never holds against another class. */
  lemma EqualsEquivalence(p: PlayerStatistics, q: PlayerStatistics)
    ensures Equals(p, Same(p))
    ensures Equals(p, Same(q)) <==> Equals(q, Same(p))
    ensures !Equals(p, Foreign)
  {
  }

  /** Two records are equal exactly when every key looks up the same value in both. */
  lemma EqualsByKeys(p: PlayerStatistics, q: PlayerStatistics)
    ensures Equals(p, Same(q)) <==> forall name :: name in FieldNames ==> GetItem(p, name) == GetItem(q, name)
  {
    if forall name :: name in FieldNames ==> GetItem(p, name) == GetItem(q, name) {
      assert GetItem(p, "winrate") == GetItem(q, "winrate");
      assert GetItem(p, "battles") == GetItem(q, "battles");
      assert GetItem(p, "damage") == GetItem(q, "damage");
      assert GetItem(p, "clantag") == GetItem(q, "clantag");
      assert GetItem(p, "battalion_full") == GetItem(q, "battalion_full");
      assert GetItem(p, "average_spotting") == GetItem(q, "average_spotting");
      assert GetItem(p, "average_kills") == GetItem(q, "average_kills");
      assert GetItem(p, "average_level") == GetItem(q, "average_level");
      assert GetItem(p, "nickname") == GetItem(q, "nickname");
      assert p.clantag == q.clantag by { OptTextInjective(p.clantag, q.clantag); }
      assert p.battalion_full == q.battalion_full by { OptTextInjective(p.battalion_full, q.battalion_full); }
      assert p.average_level == q.average_level by { OptNumInjective(p.average_level, q.average_level); }
    }
  }

  lemma OptTextInjective(a: Option<string>, b: Option<string>)
    requires OptText(a) == OptText(b)
    ensures a == b
  {
  }

  lemma OptNumInjective(a: Option<real>, b: Option<real>)
    requires OptNum(a) == OptNum(b)
    ensures a == b
  {
  }
}
