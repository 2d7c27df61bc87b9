/**
 * The battalion value records (aw_api/battalion.py): a roster entry and a
 * search result, each with its hand-written `__eq__` and `__repr__`.
 */
module Battalion {
  import opened Common
  import opened Text

  /** `BattalionMemberEntry` */
  datatype MemberEntry = MemberEntry(nickname: string, id: int, role: Option<string>, battalion_id: int)

  /** `BattalionSearchResultEntry` */
  datatype SearchEntry = SearchEntry(full_name: string, id: int)

  /**
   * `BattalionMemberEntry.__eq__`: the other object must be a member entry
   * with the same id, role and battalion id; the nickname takes no part.
   */
  function MemberEquals(m: MemberEntry, other: Instance<MemberEntry>): (r: bool)
    ensures r <==> other.Same? && other.fields.(nickname := m.nickname) == m
  {
    other.Same?
    && m.id == other.fields.id
    && m.role == other.fields.role
    && m.battalion_id == other.fields.battalion_id
  }

  /** Member equality is an equivalence that ignores only the nickname. */
  lemma MemberEqualsEquivalence(a: MemberEntry, b: MemberEntry, c: MemberEntry, nickname: string)
    ensures MemberEquals(a, Same(a))
    ensures MemberEquals(a, Same(b)) <==> MemberEquals(b, Same(a))
    ensures MemberEquals(a, Same(b)) && MemberEquals(b, Same(c)) ==> MemberEquals(a, Same(c))
    ensures MemberEquals(a, Same(a.(nickname := nickname)))
    ensures !MemberEquals(a, Foreign)
  {
  }

  /** `BattalionMemberEntry.__repr__` */
  function MemberRepr(m: MemberEntry): string {
    "<" + m.nickname + "(ID: " + ShowInt(m.id) + ") is a member of battalion with ID "
    + ShowInt(m.battalion_id) + ">"
  }

  /**
   * The repr of a member whose nickname has no `(` determines its nickname,
   * id and battalion id (the role is not shown).
   */
  lemma MemberReprInjective(m: MemberEntry, n: MemberEntry)
    requires '(' !in m.nickname && '(' !in n.nickname
    requires MemberRepr(m) == MemberRepr(n)
    ensures m.nickname == n.nickname && m.id == n.id && m.battalion_id == n.battalion_id
  {
    var tail := ") is a member of battalion with ID ";
    var bm, bn := ShowInt(m.battalion_id) + ">", ShowInt(n.battalion_id) + ">";
    var im, in' := ShowInt(m.id) + (tail + bm), ShowInt(n.id) + (tail + bn);
    var am, an := "(ID: " + im, "(ID: " + in';
    Regroup("<", m.nickname, "(ID: ", ShowInt(m.id), tail, ShowInt(m.battalion_id), ">");
    Regroup("<", n.nickname, "(ID: ", ShowInt(n.id), tail, ShowInt(n.battalion_id), ">");
    CancelPrefix("<", m.nickname + am, n.nickname + an);
    SplitAtMarker(m.nickname, n.nickname, am, an, '(');
    CancelPrefix("(ID: ", im, in');
    NoCloseParen(m.id);
    NoCloseParen(n.id);
    SplitAtMarker(ShowInt(m.id), ShowInt(n.id), tail + bm, tail + bn, ')');
    ShowIntInjective(m.id, n.id);
    CancelPrefix(tail, bm, bn);
    CancelSuffix(ShowInt(m.battalion_id), ShowInt(n.battalion_id), ">");
    ShowIntInjective(m.battalion_id, n.battalion_id);
  }

  lemma Regroup(a: string, b: string, c: string, d: string, e: string, f: string, g: string)
    ensures a + b + c + d + e + f + g == a + (b + (c + (d + (e + (f + g)))))
  {
  }

  lemma CancelPrefix(p: string, a: string, b: string)
    requires p + a == p + b
    ensures a == b
  {
    assert a == (p + a)[|p|..];
    assert b == (p + b)[|p|..];
  }

  lemma CancelSuffix(a: string, b: string, q: string)
    requires a + q == b + q
    ensures a == b
  {
    assert a == (a + q)[..|a|];
    assert b == (b + q)[..|b|];
  }

  /** Two texts that each continue with a marker they do not contain split the same way. */
  lemma SplitAtMarker(x: string, y: string, u: string, v: string, c: char)
    requires c !in x && c !in y && u != [] && v != [] && u[0] == c && v[0] == c
    requires x + u == y + v
    ensures x == y && u == v
  {
    assert x == (x + u)[..|x|];
    assert y == (y + v)[..|y|];
  }

  lemma NoCloseParen(i: int)
    ensures ')' !in ShowInt(i)
  {
  }

  /** `BattalionSearchResultEntry.__eq__`: another search entry with the same id and name. */
  function SearchEquals(e: SearchEntry, other: Instance<SearchEntry>): (r: bool)
    ensures r <==> other == Same(e)
  {
    other.Same? && e.id == other.fields.id && e.full_name == other.fields.full_name
  }

  /** `BattalionSearchResultEntry.__repr__` */
  function SearchRepr(e: SearchEntry): string {
    "<Battalion \"" + e.full_name + "\" with ID " + ShowInt(e.id) + ">"
  }

  /** The repr of a search entry whose name has no `"` determines the entry. */
  lemma SearchReprInjective(e: SearchEntry, f: SearchEntry)
    requires '"' !in e.full_name && '"' !in f.full_name
    requires SearchRepr(e) == SearchRepr(f)
    ensures e == f
  {
    var head := "<Battalion \"";
    var s := SearchRepr(e)[|head|..];
    var t := SearchRepr(f)[|head|..];
    assert s == e.full_name + ("\" with ID " + ShowInt(e.id) + ">");
    assert t == f.full_name + ("\" with ID " + ShowInt(f.id) + ">");
    SplitAtMarker(e.full_name, f.full_name, "\" with ID " + ShowInt(e.id) + ">", "\" with ID " + ShowInt(f.id) + ">", '"');
    var x := "\" with ID " + ShowInt(e.id) + ">";
    var y := "\" with ID " + ShowInt(f.id) + ">";
    assert x[10..|x| - 1] == ShowInt(e.id);
    assert y[10..|y| - 1] == ShowInt(f.id);
    ShowIntInjective(e.id, f.id);
  }

  /**
   * `xs == ys` for a list of search entries against a list of arbitrary
   * objects: the same length and `__eq__` at every position.
   */
  function ListEquals(xs: seq<SearchEntry>, ys: seq<Instance<SearchEntry>>): bool
    decreases |xs|
  {
    |xs| == |ys| && (xs == [] || (SearchEquals(xs[0], ys[0]) && ListEquals(xs[1..], ys[1..])))
  }

  /** Lists of search entries are equal exactly when they hold the same entries in the same order. */
  lemma {:induction false} ListEqualsIff(xs: seq<SearchEntry>, ys: seq<Instance<SearchEntry>>)
    ensures ListEquals(xs, ys) <==> |xs| == |ys| && forall i :: 0 <= i < |xs| ==> ys[i] == Same(xs[i])
    decreases |xs|
  {
    if xs != [] && |xs| == |ys| {
      ListEqualsIff(xs[1..], ys[1..]);
      if forall i :: 0 <= i < |xs| ==> ys[i] == Same(xs[i]) {
        assert forall i :: 0 <= i < |xs| - 1 ==> ys[1..][i] == Same(xs[1..][i]) by {
          forall i | 0 <= i < |xs| - 1 ensures ys[1..][i] == Same(xs[1..][i]) {
            assert ys[i + 1] == Same(xs[i + 1]);
          }
        }
      }
      if ListEquals(xs, ys) {
        forall i | 0 <= i < |xs| ensures ys[i] == Same(xs[i]) {
          if i > 0 {
            assert ys[1..][i - 1] == Same(xs[1..][i - 1]);
          }
        }
      }
    }
  }
}
