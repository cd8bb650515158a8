/** Shared vocabulary of the scheduling engine: optional values and results,
    the error taxonomy the route handlers report, identifiers, calendar days,
    and the string helpers the handlers rely on (SQL `ilike`, Python's
    `str.split`, `str.strip`, `str.lower`, `str.rsplit`). */
module Common {
  datatype Option<+T> = None | Some(value: T) {
    function GetOr(default: T): T {
      match this
      case Some(v) => v
      case None => default
    }
  }

  datatype Result<+T, +E> = Ok(value: T) | Err(error: E)

  /** Database primary keys. */
  type Id = int

  /** A calendar date as a day number (consecutive dates are consecutive numbers). */
  type Day = int

  /** A timestamp (for `approved_at`), supplied by the caller as "now". */
  type Instant = int

  /** A time of day in minutes after midnight. */
  type Minute = int

  /** A date string as a handler receives it: one that `strptime('%Y-%m-%d')` accepts, or not. */
  datatype DateParam = IsoDate(day: Day) | Malformed

  /** A time string as a handler receives it: one that `time.fromisoformat` accepts, or not. */
  datatype TimeParam = IsoTime(minute: Minute) | BadTime

  /** The failures the handlers report; the comment gives the source's message or cause. */
  datatype Error =
    | UserNotFound                    // 'User not found'
    | NoRoleAssigned                  // 'User has no role assigned'
    | InsufficientPermissions         // 'Insufficient permissions'
    | PermissionMissing(permission: string)  // 'Permission <p> required'
    | Required(field: string)         // '<field> is required'
    | NotFound(entity: string)        // '<Entity> not found'
    | InvalidDate(field: string)      // 'Invalid <field> format. Use YYYY-MM-DD'
    | InvalidTime(field: string)      // 'Invalid <field> format. Use HH:MM'
    | AlreadyScheduled                // 'Employee already has a shift scheduled for this date'
    | NameTaken(entity: string)       // '<Entity> with this name already exists'
    | InUse(entity: string)           // 'Cannot delete <entity> that is ...'
    | InvalidAction                   // 'Action must be either "approve" or "reject"'
    | InvalidReference(field: string) // 'Invalid role ID', 'Invalid area of responsibility ID'
    | UserExists                      // 'User with this Google ID or email already exists'
    | NoEntries                       // 'No entries provided'
    | SkillAlreadyHeld                // 'Employee already has this skill'
    | SkillNotHeld                    // 'Employee does not have this skill'
    | CriteriaMissing                 // 'Either skill or role parameter is required'
    | KeyMissing(key: string)         // a KeyError on a request key, reported with the key as its text
    | NoFile                          // 'No file provided'
    | NoFileSelected                  // 'No file selected'
    | InvalidFileType                 // 'Invalid file type. Only CSV and Excel files are allowed'
    | MissingColumns(columns: seq<string>)  // 'Missing required columns: <c1>, <c2>, ...'
    | Internal                        // an exception caught by the handler's generic `except` (HTTP 500)

  function Max0(x: int): (r: nat)
    ensures r >= x && (r == 0 || r == x)
  {
    if x < 0 then 0 else x
  }

  // ---------------------------------------------------------------------------
  // Sorted enumeration of a finite set of integers

  predicate Increasing(s: seq<int>) {
    forall i, j :: 0 <= i < j < |s| ==> s[i] < s[j]
  }

  /** A set that is not empty has an element (stated so that callers can pick one). */
  lemma HasElement(s: set<int>)
    ensures s == {} || exists y :: y in s
  {
    if !(exists y :: y in s) {
      assert s == {};
    }
  }

  /** A subset is no larger than its superset. */
  lemma SubsetCard(a: set<int>, b: set<int>)
    requires a <= b
    ensures |a| <= |b|
  {
    assert b == a + (b - a);
  }

  /** `m` is the least element of `s`. */
  predicate IsLeast(m: int, s: set<int>) {
    m in s && forall x :: x in s ==> m <= x
  }

  lemma {:induction false} LeastExists(s: set<int>)
    requires s != {}
    ensures exists m :: IsLeast(m, s)
    decreases |s|
  {
    HasElement(s);
    var y :| y in s;
    if s == {y} {
      assert IsLeast(y, s);
    } else {
      LeastExists(s - {y});
      var m' :| IsLeast(m', s - {y});
      var m := if y < m' then y else m';
      forall x | x in s ensures m <= x {
        if x != y { assert x in s - {y}; }
      }
      assert IsLeast(m, s);
    }
  }

  /** The elements of `s` in ascending order (the order a database returns keys in);
      that the order is ascending is SortedKeysIncreasing. */
  function SortedKeys(s: set<int>): (r: seq<int>)
    ensures |r| == |s|
    ensures forall x :: x in s <==> x in r
    decreases |s|
  {
    if s == {} then []
    else
      LeastExists(s);
      var m :| IsLeast(m, s);
      var rest := SortedKeys(s - {m});
      [m] + rest
  }

  /** SortedKeys lists the set in strictly ascending order, starting with its least element. */
  lemma {:induction false} SortedKeysIncreasing(s: set<int>)
    ensures Increasing(SortedKeys(s))
    ensures s != {} ==> IsLeast(SortedKeys(s)[0], s)
    decreases |s|
  {
    if s != {} {
      LeastExists(s);
      var m :| IsLeast(m, s);
      var rest := SortedKeys(s - {m});
      assert SortedKeys(s) == [m] + rest;
      SortedKeysIncreasing(s - {m});
      var r := [m] + rest;
      forall i, j | 0 <= i < j < |r| ensures r[i] < r[j] {
        if i == 0 {
          assert r[j] == rest[j - 1] && rest[j - 1] in s - {m};
        } else {
          assert r[i] == rest[i - 1] && r[j] == rest[j - 1];
        }
      }
    }
  }

  /** The least element of a non-empty set. */
  function Least(s: set<int>): (m: int)
    requires s != {}
    ensures IsLeast(m, s)
  {
    SortedKeysIncreasing(s);
    SortedKeys(s)[0]
  }

  /** The least element is the only least element. */
  lemma LeastUnique(m: int, s: set<int>)
    requires IsLeast(m, s)
    ensures s != {} && Least(s) == m
  {
  }

  // ---------------------------------------------------------------------------
  // Case folding and SQL `ilike '%' || term || '%'`

  /** ASCII lower-casing of one character. */
  function Lower(c: char): char {
    if 'A' <= c <= 'Z' then (c as int + 32) as char else c
  }

  function LowerStr(s: string): (r: string)
    ensures |r| == |s|
    ensures forall i :: 0 <= i < |s| ==> r[i] == Lower(s[i])
  {
    seq(|s|, i requires 0 <= i < |s| => Lower(s[i]))
  }

  /** `p` occurs contiguously in `s`. */
  predicate IsInfix(p: string, s: string) {
    exists i :: 0 <= i <= |s| && OccursAt(p, s, i)
  }

  predicate OccursAt(p: string, s: string, i: int) {
    0 <= i && i + |p| <= |s| && s[i..i + |p|] == p
  }

  /**
   * SQL `s LIKE p` with no escape character: `%` matches any run of
   * characters, `_` exactly one, and every other character itself.
   */
  predicate Like(s: string, p: string)
    decreases |s| + |p|
  {
    if |p| == 0 then |s| == 0
    else if p[0] == '%' then Like(s, p[1..]) || (|s| > 0 && Like(s[1..], p))
    else |s| > 0 && (p[0] == '_' || p[0] == s[0]) && Like(s[1..], p[1..])
  }

  /**
   * `s ILIKE '%' || term || '%'` as the routes build it: the term is not
   * escaped, so a `%` or `_` inside it is a wildcard too.
   */
  predicate ILike(s: string, term: string) {
    Like(LowerStr(s), "%" + LowerStr(term) + "%")
  }

  /** A term free of wildcards. */
  predicate Literal(term: string) {
    '%' !in term && '_' !in term
  }

  /** A lone `%` matches every string. */
  lemma {:induction false} LikeAnything(s: string)
    ensures Like(s, "%")
    decreases |s|
  {
    assert "%"[1..] == "";
    if |s| > 0 {
      LikeAnything(s[1..]);
    }
  }

  /** For a literal `q`, `s LIKE q || '%'` holds iff `q` is a prefix of `s`. */
  lemma {:induction false} LikePrefix(s: string, q: string)
    requires Literal(q)
    ensures Like(s, q + "%") <==> |q| <= |s| && s[..|q|] == q
    decreases |q|
  {
    if |q| == 0 {
      assert q + "%" == "%";
      LikeAnything(s);
    } else {
      assert (q + "%")[1..] == q[1..] + "%";
      assert q[0] in q;
      if |s| > 0 {
        LikePrefix(s[1..], q[1..]);
        if |q| <= |s| && s[..|q|] == q {
          assert s[1..][..|q| - 1] == s[..|q|][1..];
        }
        if s[0] == q[0] && |q| - 1 <= |s| - 1 && s[1..][..|q| - 1] == q[1..] {
          assert s[..|q|] == [s[0]] + s[1..][..|q| - 1];
          assert q == [q[0]] + q[1..];
        }
      }
    }
  }

  /** `s LIKE '%' || r` holds iff `r` matches some suffix of `s`. */
  lemma {:induction false} LikeSomeSuffix(s: string, r: string)
    ensures Like(s, "%" + r) <==> exists i :: 0 <= i <= |s| && Like(s[i..], r)
    decreases |s|
  {
    assert ("%" + r)[1..] == r;
    assert s[0..] == s;
    if |s| > 0 {
      LikeSomeSuffix(s[1..], r);
      if exists i :: 0 <= i <= |s| && Like(s[i..], r) {
        var i :| 0 <= i <= |s| && Like(s[i..], r);
        if i > 0 {
          assert s[1..][i - 1..] == s[i..];
        }
      }
      if exists i :: 0 <= i <= |s[1..]| && Like(s[1..][i..], r) {
        var i :| 0 <= i <= |s[1..]| && Like(s[1..][i..], r);
        assert s[1..][i..] == s[i + 1..];
      }
    }
  }

  /** A term without `%` or `_` matches exactly where its folded text occurs. */
  lemma {:induction false} ILikeLiteral(s: string, term: string)
    requires Literal(term)
    ensures ILike(s, term) <==> IsInfix(LowerStr(term), LowerStr(s))
  {
    var q, t := LowerStr(term), LowerStr(s);
    forall k | 0 <= k < |q| ensures q[k] != '%' && q[k] != '_' {
      assert term[k] in term;
    }
    assert "%" + q + "%" == "%" + (q + "%");
    LikeSomeSuffix(t, q + "%");
    if ILike(s, term) {
      var i :| 0 <= i <= |t| && Like(t[i..], q + "%");
      LikePrefix(t[i..], q);
      assert t[i..][..|q|] == t[i..i + |q|];
      assert OccursAt(q, t, i);
    }
    if IsInfix(q, t) {
      var i :| 0 <= i <= |t| && OccursAt(q, t, i);
      LikePrefix(t[i..], q);
      assert t[i..][..|q|] == t[i..i + |q|];
    }
  }

  /** Wildcards in a term: `a_c` finds "ABC", which holds no "a_c", and `%` finds everything. */
  lemma WildcardsInTerm(s: string)
    ensures ILike("ABC", "a_c") && !IsInfix(LowerStr("a_c"), LowerStr("ABC"))
    ensures ILike(s, "%")
  {
    assert LowerStr("ABC") == "abc";
    assert LowerStr("a_c") == "a_c";
    assert "%" + "a_c" + "%" == "%a_c%";
    assert Like("abc", "a_c%") by {
      assert "a_c%"[1..] == "_c%";
      assert "_c%"[1..] == "c%";
      assert "c%"[1..] == "%";
      assert "abc"[1..] == "bc";
      assert "bc"[1..] == "c";
      assert "c"[1..] == "";
      LikeAnything("");
    }
    assert "%a_c%"[1..] == "a_c%";
    assert LowerStr("%") == "%";
    assert "%" + "%" + "%" == "%%%";
    assert "%%%"[1..] == "%%";
    assert "%%"[1..] == "%";
    LikeAnything(LowerStr(s));
  }

  lemma {:induction false} LowerIdempotent(s: string)
    ensures LowerStr(LowerStr(s)) == LowerStr(s)
  {
    var l := LowerStr(s);
    forall i | 0 <= i < |s| ensures LowerStr(l)[i] == l[i] {
      var c := s[i];
      if 'A' <= c <= 'Z' {
        assert l[i] == (c as int + 32) as char;
      }
    }
  }

  /** Matching ignores the case of the pattern: searching for "NURSE" finds what "nurse" finds. */
  lemma ILikeIgnoresPatternCase(s: string, pattern: string)
    ensures ILike(s, pattern) <==> ILike(s, LowerStr(pattern))
  {
    LowerIdempotent(pattern);
  }

  /** An empty pattern matches every string. */
  lemma ILikeEmptyPattern(s: string)
    ensures ILike(s, "")
  {
    assert "%" + LowerStr("") + "%" == "%%";
    assert "%%"[1..] == "%";
    LikeAnything(LowerStr(s));
  }

  // ---------------------------------------------------------------------------
  // Python `str.split(sep)`, `str.strip()` and `sep.join(parts)`

  /** Python `s.split(sep)`: the pieces between occurrences of `sep`; always at least one. */
  function Split(s: string, sep: char): (r: seq<string>)
    ensures |r| >= 1
    ensures forall k :: 0 <= k < |r| ==> sep !in r[k]
    decreases |s|
  {
    if |s| == 0 then [""]
    else
      var rest := Split(s[1..], sep);
      if s[0] == sep then [""] + rest
      else [[s[0]] + rest[0]] + rest[1..]
  }

  /** Python `sep.join(parts)`. */
  function Join(parts: seq<string>, sep: char): string
    decreases |parts|
  {
    if |parts| == 0 then ""
    else if |parts| == 1 then parts[0]
    else parts[0] + [sep] + Join(parts[1..], sep)
  }

  /** Splitting loses nothing: joining the pieces back gives the original string. */
  lemma {:induction false} JoinSplit(s: string, sep: char)
    ensures Join(Split(s, sep), sep) == s
    decreases |s|
  {
    if |s| > 0 {
      var rest := Split(s[1..], sep);
      JoinSplit(s[1..], sep);
      if s[0] == sep {
        assert Split(s, sep) == [""] + rest;
        assert s == [sep] + s[1..];
      } else {
        var parts := Split(s, sep);
        assert parts == [[s[0]] + rest[0]] + rest[1..];
        if |rest| == 1 {
          assert Join(parts, sep) == [s[0]] + rest[0];
        } else {
          assert parts[1..] == rest[1..];
          assert Join(rest, sep) == rest[0] + [sep] + Join(rest[1..], sep);
          assert Join(parts, sep) == ([s[0]] + rest[0]) + [sep] + Join(rest[1..], sep);
        }
        assert s == [s[0]] + s[1..];
      }
    }
  }

  /** The characters Python's `str.strip()` removes: those `str.isspace()` accepts, the
      ASCII controls tab to carriage return and the separators 1C to 1F, the space, next
      line, no-break space, and the Unicode space and line or paragraph separators. */
  predicate IsSpace(c: char) {
    || ('\t' <= c <= '\r')
    || ('\U{1C}' <= c <= '\U{1F}')
    || c == ' ' || c == '\U{85}' || c == '\U{A0}' || c == '\U{1680}'
    || ('\U{2000}' <= c <= '\U{200A}')
    || c == '\U{2028}' || c == '\U{2029}' || c == '\U{202F}' || c == '\U{205F}' || c == '\U{3000}'
  }

  /** `s` without its leading white space: a suffix of `s` that does not start with white
      space (TrimLeftSpaces: what it drops is white space). */
  function TrimLeft(s: string): (r: string)
    ensures |r| <= |s| && r == s[|s| - |r|..]
    ensures r == [] || !IsSpace(r[0])
    decreases |s|
  {
    if |s| > 0 && IsSpace(s[0]) then TrimLeft(s[1..]) else s
  }

  lemma {:induction false} TrimLeftSpaces(s: string)
    ensures forall k :: 0 <= k < |s| - |TrimLeft(s)| ==> IsSpace(s[k])
    decreases |s|
  {
    if |s| > 0 && IsSpace(s[0]) {
      TrimLeftSpaces(s[1..]);
      forall k | 1 <= k < |s| - |TrimLeft(s)| ensures IsSpace(s[k]) {
        assert s[k] == s[1..][k - 1];
      }
    }
  }

  /** `s` without its trailing white space: a prefix of `s` that does not end with white
      space (TrimRightSpaces: what it drops is white space). */
  function TrimRight(s: string): (r: string)
    ensures |r| <= |s| && r == s[..|r|]
    ensures r == [] || !IsSpace(r[|r| - 1])
    decreases |s|
  {
    if |s| > 0 && IsSpace(s[|s| - 1]) then TrimRight(s[..|s| - 1]) else s
  }

  lemma {:induction false} TrimRightSpaces(s: string)
    ensures forall k :: |TrimRight(s)| <= k < |s| ==> IsSpace(s[k])
    decreases |s|
  {
    if |s| > 0 && IsSpace(s[|s| - 1]) {
      TrimRightSpaces(s[..|s| - 1]);
      forall k | |TrimRight(s)| <= k < |s| - 1 ensures IsSpace(s[k]) {
        assert s[k] == s[..|s| - 1][k];
      }
    }
  }

  /** Python `s.strip()`: `s` without its leading and trailing white space. */
  function Strip(s: string): (r: string)
    ensures |r| <= |s|
    ensures r == [] || (!IsSpace(r[0]) && !IsSpace(r[|r| - 1]))
  {
    TrimRight(TrimLeft(s))
  }

  /** Strip removes white space and nothing else, from both ends only. */
  lemma StripSurrounds(s: string)
    ensures Surrounds(s, Strip(s), |s| - |TrimLeft(s)|)
  {
    var l := TrimLeft(s);
    TrimLeftSpaces(s);
    TrimRightSpaces(l);
    PeelBothEnds(s, l, Strip(s), |s| - |l|);
  }

  /** Dropping white space from the front of `s` and then from the back of what is left
      leaves `r` surrounded by white space in `s`. */
  lemma PeelBothEnds(s: string, l: string, r: string, i: int)
    requires 0 <= i <= |s| && l == s[i..] && (forall k :: 0 <= k < i ==> IsSpace(s[k]))
    requires |r| <= |l| && r == l[..|r|] && (forall k :: |r| <= k < |l| ==> IsSpace(l[k]))
    ensures Surrounds(s, r, i)
  {
    forall k | i + |r| <= k < |s| ensures IsSpace(s[k]) {
      assert s[k] == l[k - i];
    }
    assert r == s[i..i + |r|];
  }

  /** `s` is `r` at offset `i`, with only white space before and after it. */
  predicate Surrounds(s: string, r: string, i: int) {
    0 <= i <= |s| - |r| && r == s[i..i + |r|]
    && (forall k :: 0 <= k < i ==> IsSpace(s[k]))
    && (forall k :: i + |r| <= k < |s| ==> IsSpace(s[k]))
  }

  /** The text after the last `sep` (Python `s.rsplit(sep, 1)[1]`), when `sep` occurs. */
  function AfterLast(s: string, sep: char): (r: Option<string>)
    ensures r.None? <==> sep !in s
    ensures r.Some? ==> sep !in r.value && |r.value| < |s|
                        && s[|s| - |r.value| - 1] == sep && s[|s| - |r.value|..] == r.value
    decreases |s|
  {
    if |s| == 0 then None
    else if s[|s| - 1] == sep then Some("")
    else
      match AfterLast(s[..|s| - 1], sep)
      case None => None
      case Some(t) => Some(t + [s[|s| - 1]])
  }
}
