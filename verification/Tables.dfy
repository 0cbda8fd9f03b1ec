/** Table prefixes and the LIKE selection behind DropPrefixedTables. */
module Tables {

  predicate LowerHex(c: char) {
    '0' <= c <= '9' || 'a' <= c <= 'f'
  }

  /** ValidPrefixPattern: d, eight lower-case hex digits, underscore. */
  predicate ValidPrefix(p: string) {
    |p| == 10 && p[0] == 'd' && p[9] == '_' && forall i :: 1 <= i < 9 ==> LowerHex(p[i])
  }

  /** The text form of a UUID. */
  predicate UuidShape(u: string) {
    |u| == 36 && forall i :: 0 <= i < 36 ==> if i in {8, 13, 18, 23} then u[i] == '-' else LowerHex(u[i])
  }

  /** strings.ReplaceAll(s, "-", ""). */
  function RemoveDashes(s: string): string {
    if s == "" then "" else (if s[0] == '-' then "" else [s[0]]) + RemoveDashes(s[1..])
  }

  function GenerateDbPrefix(uuid: string): string
    requires |uuid| >= 8
  {
    "d" + RemoveDashes(uuid[..8]) + "_"
  }

  lemma {:induction false} HexHasNoDashes(s: string)
    requires forall i :: 0 <= i < |s| ==> LowerHex(s[i])
    ensures RemoveDashes(s) == s
  {
    if s == "" {
    } else {
      assert LowerHex(s[0]);
      assert forall i :: 0 <= i < |s[1..]| ==> s[1..][i] == s[i + 1];
      HexHasNoDashes(s[1..]);
    }
  }

  /** Every generated prefix is accepted by the check that guards the SQL, and
      different leading digits give different prefixes. */
  lemma GeneratedPrefixesValid(u: string, v: string)
    requires UuidShape(u) && UuidShape(v)
    ensures ValidPrefix(GenerateDbPrefix(u)) && GenerateDbPrefix(u) == "d" + u[..8] + "_"
    ensures GenerateDbPrefix(u) == GenerateDbPrefix(v) <==> u[..8] == v[..8]
  {
    forall i | 0 <= i < 8 ensures LowerHex(u[..8][i]) && LowerHex(v[..8][i]) {}
    HexHasNoDashes(u[..8]);
    HexHasNoDashes(v[..8]);
    assert GenerateDbPrefix(u)[1..9] == u[..8] && GenerateDbPrefix(v)[1..9] == v[..8];
  }

  /** SQL LIKE with the default escape character. */
  predicate Like(pat: string, s: string)
    decreases |pat| + |s|
  {
    if pat == "" then s == ""
    else if pat[0] == '%' then Like(pat[1..], s) || (s != "" && Like(pat, s[1..]))
    else if pat[0] == '\\' && |pat| > 1 then s != "" && s[0] == pat[1] && Like(pat[2..], s[1..])
    else s != "" && (pat[0] == '_' || pat[0] == s[0]) && Like(pat[1..], s[1..])
  }

  predicate Literal(p: string) {
    forall i :: 0 <= i < |p| ==> p[i] != '%' && p[i] != '_' && p[i] != '\\'
  }

  lemma {:induction false} LikeLiteral(p: string, rest: string, s: string)
    requires Literal(p)
    ensures Like(p + rest, s) <==> |p| <= |s| && s[..|p|] == p && Like(rest, s[|p|..])
  {
    if p == "" {
      assert p + rest == rest && s[0..] == s;
    } else {
      assert p[0] != '%' && p[0] != '\\';
      assert (p + rest)[0] == p[0] && (p + rest)[1..] == p[1..] + rest;
      if s != "" {
        LikeLiteral(p[1..], rest, s[1..]);
        if |p| <= |s| {
          assert s[..|p|] == [s[0]] + s[1..][..|p| - 1];
          assert p == [p[0]] + p[1..];
          assert s[1..][|p| - 1..] == s[|p|..];
        }
      }
    }
  }

  lemma {:induction false} LikeAnything(s: string)
    ensures Like("%", s)
  {
    assert "%"[1..] == "";
    if s == "" {
    } else {
      LikeAnything(s[1..]);
    }
  }

  function Pattern(prefix: string): string {
    prefix + "%"
  }

  /** What the pattern really selects. The trailing underscore of a prefix is a
      wildcard, so only the first nine characters are compared. */
  lemma PatternSelects(p: string, t: string)
    requires ValidPrefix(p)
    ensures Like(Pattern(p), t) <==> |t| >= 10 && t[..9] == p[..9]
  {
    forall i | 0 <= i < 9 ensures p[..9][i] != '%' && p[..9][i] != '_' && p[..9][i] != '\\' {
      if i > 0 { assert LowerHex(p[i]); }
    }
    assert Pattern(p) == p[..9] + "_%";
    LikeLiteral(p[..9], "_%", t);
    if |t| >= 9 {
      var u := t[9..];
      assert "_%"[1..] == "%";
      if u != "" { LikeAnything(u[1..]); }
      assert Like("_%", u) <==> u != "";
    }
  }

  function Selected(tables: set<string>, prefix: string): set<string> {
    set t | t in tables && Like(Pattern(prefix), t)
  }

  /** The tables left after DropPrefixedTables; an invalid prefix is an error
      before any statement is sent. */
  function AfterDrop(tables: set<string>, prefix: string): set<string> {
    if ValidPrefix(prefix) then tables - Selected(tables, prefix) else tables
  }

  /** Main theorem: among tables named by valid prefixes a drop removes those of
      its own prefix and no other instance's. */
  lemma DropIsolates(tables: set<string>, p: string, q: string, rest: string)
    requires ValidPrefix(p) && ValidPrefix(q) && q + rest in tables
    ensures q + rest in AfterDrop(tables, p) <==> p != q
  {
    PatternSelects(p, q + rest);
    assert (q + rest)[..9] == q[..9];
    assert p == p[..9] + "_" && q == q[..9] + "_";
  }

  /** Outside that naming scheme the wildcard shows: a table that does not carry
      the prefix is dropped with it. */
  lemma UnderscoreIsWildcard(tables: set<string>)
    ensures var p, t := "d12345678_", "d12345678x";
            ValidPrefix(p) && !(p <= t) && t !in AfterDrop(tables + {t}, p)
  {
    var p, t := "d12345678_", "d12345678x";
    assert ValidPrefix(p);
    PatternSelects(p, t);
    assert t[..9] == p[..9];
    assert p[9] != t[9];
  }

  class Database {
    var tables: set<string>

    constructor (tables: set<string>)
      ensures this.tables == tables
    {
      this.tables := tables;
    }

    /** The row loop and the DROP statement; listing or dropping may fail. */
    method DropPrefixedTables(prefix: string, listOk: bool, dropOk: bool) returns (ok: bool)
      modifies this
      ensures ok <==> ValidPrefix(prefix) && listOk && (dropOk || Selected(old(tables), prefix) == {})
      ensures tables == if listOk && dropOk then AfterDrop(old(tables), prefix) else old(tables)
      ensures forall t :: t in tables <==>
                t in old(tables) && !(listOk && dropOk && ValidPrefix(prefix) && |t| >= 10 && t[..9] == prefix[..9])
      ensures ok <==> ValidPrefix(prefix) && listOk
                      && (dropOk || forall t | t in tables :: |t| < 10 || t[..9] != prefix[..9])
    {
      forall t | ValidPrefix(prefix) ensures Like(Pattern(prefix), t) <==> |t| >= 10 && t[..9] == prefix[..9] {
        PatternSelects(prefix, t);
      }
      if !ValidPrefix(prefix) || !listOk {
        return false;
      }
      var names: seq<string> := [];
      var rows := Selected(tables, prefix);
      while rows != {}
        invariant rows <= Selected(tables, prefix)
        invariant rows + (set n | n in names) == Selected(tables, prefix)
        invariant tables == old(tables)
      {
        var row :| row in rows;
        names := names + [row];
        rows := rows - {row};
      }
      if |names| == 0 {
        assert Selected(tables, prefix) == {};
        assert AfterDrop(tables, prefix) == tables;
        return true;
      }
      assert names[0] in Selected(tables, prefix);
      if !dropOk {
        return false;
      }
      tables := tables - set n | n in names;
      return true;
    }
  }
}
