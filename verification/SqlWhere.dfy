/** Compiling a WHERE clause into ranges, prefixes and client-side filters (the _P cursor, _where, _narrow and
    _prefix in blindrange/sql.py). */
module SqlWhere {
  import opened Basics
  import opened Chains
  import opened Index
  import Dyadic

  datatype Token = Kw(word: string) | Ident(name: string) | Num(n: nat) | Str(text: string) | Op(op: string)

  /** How a column is declared; an opaque handle is indexed by a bucket of fixed width. */
  datatype Column =
    | KeyCol(mlvl: nat)
    | IntCol(bits: nat, mlvl: nat)
    | TextCol(chars: nat, mlvl: nat)
    | StoredCol
  {
    function Bits(): nat {
      match this
      case KeyCol(_) => KEY_BITS
      case IntCol(bits, _) => bits
      case TextCol(chars, _) => 5 * chars
      case StoredCol => 0
    }
  }

  const KEY_BITS: nat := 20

  type Columns = map<string, Column>

  /** A decrypted row: numbers, texts, and the handles kept beside KEY columns. */
  datatype Row = Row(ints: map<string, int>, texts: map<string, string>, plains: map<string, string>)

  /** Bucket of a handle; keyed hashing is a parameter. */
  type Bucketing = (string, string) -> nat

  ghost predicate Buckets(bucket: Bucketing) {
    forall c, v :: bucket(c, v) < Pow2(KEY_BITS)
  }

  /** Rows as inserts make them. */
  ghost predicate WellFormed(meta: Columns, bucket: Bucketing, row: Row) {
    forall c :: c in meta ==>
      match meta[c]
      case KeyCol(_) => c in row.plains && c in row.ints && row.ints[c] == bucket(c, row.plains[c])
      case IntCol(bits, _) => c in row.ints && 0 <= row.ints[c] < Pow2(bits)
      case TextCol(_, _) => c in row.texts
      case StoredCol => true
  }

  // ------------------------------------------------------------ conditions and what they mean

  datatype Cond =
    | Range(col: string, lo: Option<int>, hi: Option<int>)
    | KeyIs(col: string, handle: string)
    | TextIs(col: string, text: string)
    | Like(col: string, prefix: string)

  ghost predicate FitsColumn(meta: Columns, c: Cond) {
    c.col in meta &&
    match c
    case Range(_, _, _) => meta[c.col].IntCol?
    case KeyIs(_, _) => meta[c.col].KeyCol?
    case TextIs(_, _) => meta[c.col].TextCol?
    case Like(_, _) => meta[c.col].TextCol?
  }

  /** What a condition asks of a row. LIKE compares folded five-bit codes as far as the index reaches, and the
      plain text when the pattern is longer than that. */
  ghost predicate Holds(meta: Columns, c: Cond, row: Row)
    requires FitsColumn(meta, c)
  {
    match c
    case Range(col, lo, hi) => col in row.ints && (lo.Some? ==> lo.value <= row.ints[col]) && (hi.Some? ==>
        row.ints[col] <= hi.value)
    case KeyIs(col, handle) => col in row.plains && row.plains[col] == handle
    case TextIs(col, text) => col in row.texts && row.texts[col] == text
    case Like(col, prefix) =>
      col in row.texts && if |prefix| <= meta[col].chars
          then Dyadic.SharesPrefix(row.texts[col], prefix, meta[col].chars)
                          else prefix <= row.texts[col]
  }

  // ------------------------------------------------------------ reading the clause

  function At(toks: seq<Token>, i: nat): Option<Token> {
    if i < |toks| then Some(toks[i]) else None
  }

  predicate Contains(s: string, c: char) {
    s != [] && (s[0] == c || Contains(s[1..], c))
  }

  /** The prefix a pattern asks for: only a trailing wildcard is understood. */
  function PatternPrefix(pat: string): Option<string> {
    if pat == [] || pat[|pat| - 1] != '%' || Contains(pat[..|pat| - 1], '%') || Contains(pat, '_') then None
    else Some(pat[..|pat| - 1])
  }

  function Comparison(col: string, op: string, n: int): Option<Cond> {
    if op == "=" then Some(Range(col, Some(n), Some(n)))
    else if op == ">=" then Some(Range(col, Some(n), None))
    else if op == ">" then Some(Range(col, Some(n + 1), None))
    else if op == "<=" then Some(Range(col, None, Some(n)))
    else if op == "<" then Some(Range(col, None, Some(n - 1)))
    else None
  }

  /** What may follow a KEY column: a handle it equals. */
  function AfterKey(col: string, toks: seq<Token>, i: nat): Option<(Cond, nat)> {
    if At(toks, i) != Some(Op("=")) then None
    else
      match At(toks, i + 1)
      case Some(Num(n)) => Some((KeyIs(col, Digits(n)), i + 2))
      case Some(Str(s)) => Some((KeyIs(col, s), i + 2))
      case _ => None
  }

  /** What may follow an INT column. */
  function AfterInt(col: string, toks: seq<Token>, i: nat): Option<(Cond, nat)> {
    match At(toks, i)
    case Some(Kw(w)) =>
      if w == "BETWEEN" && At(toks, i + 1).Some? && At(toks, i + 1).value.Num? && At(toks, i + 2) == Some(Kw("AND"))
         && At(toks, i + 3).Some? && At(toks, i + 3).value.Num?
      then Some((Range(col, Some(At(toks, i + 1).value.n), Some(At(toks, i + 3).value.n)), i + 4)) else None
    case Some(Op(op)) =>
      if At(toks, i + 1).Some? && At(toks, i + 1).value.Num? && Comparison(col, op, At(toks, i + 1).value.n).Some?
      then Some((Comparison(col, op, At(toks, i + 1).value.n).value, i + 2)) else None
    case _ => None
  }

  /** What may follow a TEXT column. */
  function AfterText(col: string, toks: seq<Token>, i: nat): Option<(Cond, nat)> {
    match At(toks, i)
    case Some(Kw(w)) =>
      if w == "LIKE" && At(toks, i + 1).Some? && At(toks, i + 1).value.Str?
          && PatternPrefix(At(toks, i + 1).value.text).Some?
      then Some((Like(col, PatternPrefix(At(toks, i + 1).value.text).value), i + 2)) else None
    case Some(Op(op)) =>
      if op == "=" && At(toks, i + 1).Some? && At(toks, i + 1).value.Str?
      then Some((TextIs(col, At(toks, i + 1).value.text), i + 2)) else None
    case _ => None
  }

  /** One condition from position i, and where it ends; nothing when it is refused. */
  function ReadCond(meta: Columns, toks: seq<Token>, i: nat): Option<(Cond, nat)> {
    if At(toks, i).None? || !At(toks, i).value.Ident? || At(toks, i).value.name !in meta then None
    else
      var col := At(toks, i).value.name;
      match meta[col]
      case StoredCol => None
      case KeyCol(_) => AfterKey(col, toks, i + 1)
      case IntCol(_, _) => AfterInt(col, toks, i + 1)
      case TextCol(_, _) => AfterText(col, toks, i + 1)
  }

  lemma ReadCondFits(meta: Columns, toks: seq<Token>, i: nat)
    ensures ReadCond(meta, toks, i).Some? ==>
              FitsColumn(meta, ReadCond(meta, toks, i).value.0) && i < ReadCond(meta, toks, i).value.1 <= |toks|
  {
  }

  predicate IsText(c: Cond) {
    c.TextIs? || c.Like?
  }

  /** The whole clause: conditions joined by AND, at most one per text column; and where it ends. */
  function ReadAll(meta: Columns, toks: seq<Token>, i: nat, texts: set<string>): (r: Option<(seq<Cond>, nat)>)
    ensures r.Some? ==> r.value.0 != []
    decreases |toks| - i
  {
    ReadCondFits(meta, toks, i);
    match ReadCond(meta, toks, i)
    case None => None
    case Some((c, j)) =>
      if IsText(c) && c.col in texts then None
      else if At(toks, j) != Some(Kw("AND")) then Some(([c], j))
      else
        match ReadAll(meta, toks, j + 1, if IsText(c) then texts + {c.col} else texts)
        case None => None
        case Some((rest, end)) => Some(([c] + rest, end))
  }

  // ------------------------------------------------------------ what a clause says, token by token

  /** A text followed by the one wildcard that is understood. */
  ghost predicate IsPattern(pattern: string, prefix: string) {
    pattern == prefix + "%" && '%' !in prefix && '_' !in prefix
  }

  /** The shapes a condition can have, by the column it is on. */
  ghost predicate WellWritten(meta: Columns, t: seq<Token>) {
    |t| >= 3 && t[0].Ident? && t[0].name in meta &&
    match meta[t[0].name]
    case KeyCol(_) => |t| == 3 && t[1] == Op("=") && (t[2].Num? || t[2].Str?)
    case IntCol(_, _) =>
      || (|t| == 3 && t[1].Op? && t[1].op in ["=", "<", "<=", ">", ">="] && t[2].Num?)
      || (|t| == 5 && t[1] == Kw("BETWEEN") && t[2].Num? && t[3] == Kw("AND") && t[4].Num?)
    case TextCol(_, _) =>
      |t| == 3 && t[2].Str? && (t[1] == Op("=") || (t[1] == Kw("LIKE") && exists p :: IsPattern(t[2].text, p)))
    case StoredCol => false
  }

  /** What a condition, as it is written, says of a row. */
  ghost predicate Says(meta: Columns, t: seq<Token>, row: Row)
    requires WellWritten(meta, t)
  {
    var c := t[0].name;
    match meta[c]
    case KeyCol(_) => c in row.plains && row.plains[c] == if t[2].Num? then Digits(t[2].n) else t[2].text
    case IntCol(_, _) =>
      c in row.ints &&
      if t[1] == Kw("BETWEEN") then t[2].n <= row.ints[c] <= t[4].n
      else if t[1] == Op("=") then row.ints[c] == t[2].n
      else if t[1] == Op("<") then row.ints[c] < t[2].n
      else if t[1] == Op("<=") then row.ints[c] <= t[2].n
      else if t[1] == Op(">") then row.ints[c] > t[2].n
      else row.ints[c] >= t[2].n
    case TextCol(chars, _) =>
      c in row.texts &&
      if t[1] == Op("=") then row.texts[c] == t[2].text
      else forall p :: IsPattern(t[2].text, p) ==>
        if |p| > chars then p <= row.texts[c]
        else forall k :: 0 <= k < |p| ==> Dyadic.CodeAt(row.texts[c], k) == Dyadic.Char5(p[k])
    case StoredCol => false
  }

  /** Conditions joined by AND. */
  function Sentence(pieces: seq<seq<Token>>): seq<Token> {
    if pieces == [] then []
    else if |pieces| == 1 then pieces[0]
    else pieces[0] + [Kw("AND")] + Sentence(pieces[1..])
  }

  ghost predicate OnText(meta: Columns, t: seq<Token>) {
    WellWritten(meta, t) && meta[t[0].name].TextCol?
  }

  /** Well-written conditions, on each text column at most one, and on none of some text columns. */
  ghost predicate Conditions(meta: Columns, pieces: seq<seq<Token>>, texts: set<string>) {
    && (forall k :: 0 <= k < |pieces| ==> WellWritten(meta, pieces[k]))
    && (forall k :: 0 <= k < |pieces| && OnText(meta, pieces[k]) ==> pieces[k][0].name !in texts)
    && (forall k, l :: 0 <= k < l < |pieces| && OnText(meta, pieces[k]) && OnText(meta, pieces[l]) ==>
          pieces[k][0].name != pieces[l][0].name)
  }

  /** The clause that stands at the beginning of some tokens: as many conditions as are joined by AND. */
  ghost predicate Clauses(meta: Columns, toks: seq<Token>, pieces: seq<seq<Token>>, texts: set<string>) {
    && pieces != [] && Conditions(meta, pieces, texts)
    && Sentence(pieces) <= toks && At(toks, |Sentence(pieces)|) != Some(Kw("AND"))
  }

  ghost predicate AllSay(meta: Columns, pieces: seq<seq<Token>>, row: Row) {
    forall k :: 0 <= k < |pieces| ==> WellWritten(meta, pieces[k]) && Says(meta, pieces[k], row)
  }

  lemma {:induction false} ContainsIn(s: string, c: char)
    ensures Contains(s, c) <==> c in s
  {
    if s != [] {
      ContainsIn(s[1..], c);
    }
  }

  lemma PatternIs(pat: string, prefix: string)
    ensures IsPattern(pat, prefix) <==> PatternPrefix(pat) == Some(prefix)
  {
    ContainsIn(pat, '_');
    if pat != [] {
      var init := pat[..|pat| - 1];
      ContainsIn(init, '%');
      assert pat == init + [pat[|pat| - 1]];
      if pat == prefix + "%" {
        assert init == prefix;
      }
    }
  }

  lemma ReadCondShape(meta: Columns, toks: seq<Token>, i: nat)
    requires ReadCond(meta, toks, i).Some?
    ensures var (c, j) := ReadCond(meta, toks, i).value;
            && i + 3 <= j <= |toks| && WellWritten(meta, toks[i..j]) && c.col == toks[i].name
            && FitsColumn(meta, c) && (IsText(c) <==> OnText(meta, toks[i..j]))
  {
    hide PatternPrefix, Digits;
    var (c, j) := ReadCond(meta, toks, i).value;
    if c.Like? {
      PatternIs(toks[i + 2].text, c.prefix);
    }
  }

  lemma KeySays(meta: Columns, toks: seq<Token>, i: nat, row: Row)
    requires ReadCond(meta, toks, i).Some? && meta[toks[i].name].KeyCol?
    ensures var (c, j) := ReadCond(meta, toks, i).value;
            && i <= j <= |toks| && WellWritten(meta, toks[i..j]) && FitsColumn(meta, c)
            && (Holds(meta, c, row) <==> Says(meta, toks[i..j], row))
  {
    hide PatternPrefix, Digits;
  }

  lemma IntSays(meta: Columns, toks: seq<Token>, i: nat, row: Row)
    requires ReadCond(meta, toks, i).Some? && meta[toks[i].name].IntCol?
    ensures var (c, j) := ReadCond(meta, toks, i).value;
            && i <= j <= |toks| && WellWritten(meta, toks[i..j]) && FitsColumn(meta, c)
            && (Holds(meta, c, row) <==> Says(meta, toks[i..j], row))
  {
    hide PatternPrefix, Digits;
  }

  lemma TextSays(meta: Columns, toks: seq<Token>, i: nat, row: Row)
    requires ReadCond(meta, toks, i).Some? && meta[toks[i].name].TextCol?
    ensures var (c, j) := ReadCond(meta, toks, i).value;
            && i <= j <= |toks| && WellWritten(meta, toks[i..j]) && FitsColumn(meta, c)
            && (Holds(meta, c, row) <==> Says(meta, toks[i..j], row))
  {
    hide PatternPrefix, Digits, IsPattern, ReadCond, AfterText;
    ReadCondShape(meta, toks, i);
    TextRead(meta, toks, i);
    var (c, j) := ReadCond(meta, toks, i).value;
    if c.Like? {
      LikeSays(meta, toks[i..j], c.prefix, row);
    }
  }

  lemma TextRead(meta: Columns, toks: seq<Token>, i: nat)
    requires ReadCond(meta, toks, i).Some? && meta[toks[i].name].TextCol?
    ensures var (c, j) := ReadCond(meta, toks, i).value;
            && j == i + 3 <= |toks| && toks[i + 2].Str? && c.col == toks[i].name
            && ((c == TextIs(toks[i].name, toks[i + 2].text) && toks[i + 1] == Op("="))
                || (c.Like? && toks[i + 1] == Kw("LIKE") && IsPattern(toks[i + 2].text, c.prefix)))
  {
    hide PatternPrefix, Digits;
    var (c, j) := ReadCond(meta, toks, i).value;
    if c.Like? {
      PatternIs(toks[i + 2].text, c.prefix);
    }
  }

  lemma LikeSays(meta: Columns, t: seq<Token>, prefix: string, row: Row)
    requires WellWritten(meta, t) && meta[t[0].name].TextCol? && t[1] == Kw("LIKE") && IsPattern(t[2].text, prefix)
    ensures Holds(meta, Like(t[0].name, prefix), row) <==> Says(meta, t, row)
  {
    hide Dyadic.CodeAt, Dyadic.Char5;
    forall p: string | IsPattern(t[2].text, p) ensures p == prefix {
      assert p == t[2].text[..|t[2].text| - 1];
      assert prefix == t[2].text[..|t[2].text| - 1];
    }
  }

  /** A condition that is read is a well-written one, and asks what it says. */
  lemma ReadCondSays(meta: Columns, toks: seq<Token>, i: nat)
    requires ReadCond(meta, toks, i).Some?
    ensures var (c, j) := ReadCond(meta, toks, i).value;
            && i < j <= |toks| && WellWritten(meta, toks[i..j]) && c.col == toks[i].name
            && FitsColumn(meta, c) && (IsText(c) <==> OnText(meta, toks[i..j]))
            && forall row :: Holds(meta, c, row) <==> Says(meta, toks[i..j], row)
  {
    ReadCondShape(meta, toks, i);
    hide ReadCond, WellWritten, Holds, Says, FitsColumn, OnText;
    var (c, j) := ReadCond(meta, toks, i).value;
    forall row ensures Holds(meta, c, row) <==> Says(meta, toks[i..j], row) {
      ReadOn(meta, toks, i);
      match meta[toks[i].name]
      case KeyCol(_) => KeySays(meta, toks, i, row);
      case IntCol(_, _) => IntSays(meta, toks, i, row);
      case TextCol(_, _) => TextSays(meta, toks, i, row);
    }
  }

  lemma ReadOn(meta: Columns, toks: seq<Token>, i: nat)
    requires ReadCond(meta, toks, i).Some?
    ensures i < |toks| && toks[i].Ident? && toks[i].name in meta && !meta[toks[i].name].StoredCol?
  {
  }

  /** A well-written condition is read. */
  lemma WellWrittenRead(meta: Columns, toks: seq<Token>, i: nat, j: nat)
    requires i <= j <= |toks| && WellWritten(meta, toks[i..j])
    ensures ReadCond(meta, toks, i).Some? && ReadCond(meta, toks, i).value.1 == j
  {
    hide PatternPrefix, Digits;
    var t := toks[i..j];
    assert forall k :: 0 <= k < |t| ==> At(toks, i + k) == Some(t[k]);
    if t[1] == Kw("LIKE") && meta[t[0].name].TextCol? {
      var p :| IsPattern(t[2].text, p);
      PatternIs(t[2].text, p);
    }
  }

  /** What is read, and what is refused, in terms of what is written. */
  lemma CondMeans(meta: Columns, toks: seq<Token>, i: nat)
    ensures match ReadCond(meta, toks, i)
            case Some((c, j)) =>
              && i < j <= |toks| && WellWritten(meta, toks[i..j]) && FitsColumn(meta, c)
              && forall row :: Holds(meta, c, row) <==> Says(meta, toks[i..j], row)
            case None => forall j :: i <= j <= |toks| ==> !WellWritten(meta, toks[i..j])
  {
    hide ReadCond, WellWritten, Says, Holds, FitsColumn;
    if ReadCond(meta, toks, i).Some? {
      ReadCondSays(meta, toks, i);
    } else {
      forall j | i <= j <= |toks| ensures !WellWritten(meta, toks[i..j]) {
        if WellWritten(meta, toks[i..j]) {
          WellWrittenRead(meta, toks, i, j);
        }
      }
    }
  }

  /** Putting a condition in front of a clause. */
  lemma ConditionsCons(meta: Columns, piece: seq<Token>, rest: seq<seq<Token>>, texts: set<string>)
    requires WellWritten(meta, piece)
    ensures var more := if OnText(meta, piece) then texts + {piece[0].name} else texts;
            Conditions(meta, [piece] + rest, texts) <==>
              !(OnText(meta, piece) && piece[0].name in texts) && Conditions(meta, rest, more)
  {
    var all := [piece] + rest;
    var more := if OnText(meta, piece) then texts + {piece[0].name} else texts;
    assert forall k :: 0 <= k < |rest| ==> rest[k] == all[k + 1];
    assert all[0] == piece;
    hide WellWritten;
    if Conditions(meta, all, texts) {
      forall k | 0 <= k < |rest| ensures WellWritten(meta, rest[k]) {
        assert WellWritten(meta, all[k + 1]);
      }
      forall k | 0 <= k < |rest| && OnText(meta, rest[k]) ensures rest[k][0].name !in more {
        assert OnText(meta, all[k + 1]);
      }
      forall k, l | 0 <= k < l < |rest| && OnText(meta, rest[k]) && OnText(meta, rest[l])
        ensures rest[k][0].name != rest[l][0].name {
        assert OnText(meta, all[k + 1]) && OnText(meta, all[l + 1]);
      }
    }
  }

  lemma SentenceCons(piece: seq<Token>, rest: seq<seq<Token>>)
    requires rest != []
    ensures Sentence([piece] + rest) == piece + [Kw("AND")] + Sentence(rest)
  {
    assert ([piece] + rest)[1..] == rest;
  }

  lemma AllSayCons(meta: Columns, piece: seq<Token>, rest: seq<seq<Token>>, row: Row)
    requires WellWritten(meta, piece)
    ensures AllSay(meta, [piece] + rest, row) <==> Says(meta, piece, row) && AllSay(meta, rest, row)
  {
    hide WellWritten, Says;
    var all := [piece] + rest;
    assert all[0] == piece && forall k :: 0 <= k < |rest| ==> rest[k] == all[k + 1];
    if AllSay(meta, all, row) {
      forall k | 0 <= k < |rest| ensures WellWritten(meta, rest[k]) && Says(meta, rest[k], row) {
        assert WellWritten(meta, all[k + 1]) && Says(meta, all[k + 1], row);
      }
    }
  }

  lemma AllHoldCons(meta: Columns, c: Cond, rest: seq<Cond>, row: Row)
    requires FitsColumn(meta, c) && forall x :: x in rest ==> FitsColumn(meta, x)
    ensures AllHold(meta, [c] + rest, row) <==> Holds(meta, c, row) && AllHold(meta, rest, row)
  {
    hide FitsColumn, Holds;
    assert c in [c] + rest;
  }

  /** What is read is a clause. */
  lemma {:induction false} ReadIsClause(meta: Columns, toks: seq<Token>, i: nat, texts: set<string>)
    returns (pieces: seq<seq<Token>>)
    requires i <= |toks| && ReadAll(meta, toks, i, texts).Some?
    ensures Clauses(meta, toks[i..], pieces, texts)
    decreases |toks| - i
  {
    hide ReadCond, WellWritten, FitsColumn, Holds, Says;
    ReadCondSays(meta, toks, i);
    var (c, j) := ReadCond(meta, toks, i).value;
    ReadOn(meta, toks, i);
    var piece := toks[i..j];
    if At(toks, j) == Some(Kw("AND")) {
      var more := if IsText(c) then texts + {c.col} else texts;
      var rest := ReadIsClause(meta, toks, j + 1, more);
      pieces := [piece] + rest;
      assert piece[0] == toks[i];
      ConditionsCons(meta, piece, rest, texts);
      SentenceCons(piece, rest);
      assert toks[i..] == piece + [Kw("AND")] + toks[j + 1..];
    } else {
      pieces := [piece];
      assert piece[0] == toks[i];
      ConditionsCons(meta, piece, [], texts);
      assert [piece] + [] == [piece];
    }
  }

  /** A clause is read, and what is read of it asks what it says. */
  lemma {:induction false} ClauseIsRead(meta: Columns, toks: seq<Token>, i: nat, pieces: seq<seq<Token>>,
                                        texts: set<string>)
    requires i <= |toks| && Clauses(meta, toks[i..], pieces, texts)
    ensures ReadAll(meta, toks, i, texts).Some?
    ensures var conds := ReadAll(meta, toks, i, texts).value.0;
            && (forall c :: c in conds ==> FitsColumn(meta, c))
            && forall row :: AllHold(meta, conds, row) <==> AllSay(meta, pieces, row)
    decreases |pieces|
  {
    hide ReadCond, WellWritten, FitsColumn, Holds, Says, AllHold, AllSay, Conditions;
    var piece, rest := pieces[0], pieces[1..];
    assert pieces == [piece] + rest;
    FirstWellWritten(meta, pieces, texts);
    var j := i + |piece|;
    if rest == [] {
      assert Sentence(pieces) == piece;
    } else {
      SentenceCons(piece, rest);
      assert toks[i..][|piece|] == Kw("AND") && toks[i..][|piece| + 1..] == toks[j + 1..];
    }
    assert toks[i..j] == piece;
    WellWrittenRead(meta, toks, i, j);
    ReadCondSays(meta, toks, i);
    var c := ReadCond(meta, toks, i).value.0;
    ConditionsCons(meta, piece, rest, texts);
    if rest != [] {
      ClauseIsRead(meta, toks, j + 1, rest, if IsText(c) then texts + {c.col} else texts);
    }
    var conds := ReadAll(meta, toks, i, texts).value.0;
    forall row ensures AllHold(meta, conds, row) <==> AllSay(meta, pieces, row) {
      AllSayCons(meta, piece, rest, row);
      AllHoldCons(meta, c, conds[1..], row);
      assert conds == [c] + conds[1..];
      if rest == [] {
        NothingSaid(meta, row);
      }
    }
  }

  lemma FirstWellWritten(meta: Columns, pieces: seq<seq<Token>>, texts: set<string>)
    requires pieces != [] && Conditions(meta, pieces, texts)
    ensures WellWritten(meta, pieces[0]) && |pieces[0]| >= 3
  {
  }

  lemma NothingSaid(meta: Columns, row: Row)
    ensures AllSay(meta, [], row) && AllHold(meta, [], row)
  {
  }

  // ------------------------------------------------------------ what compiling produces

  /** A check on the decrypted row. */
  datatype Post = HandleIs(col: string, handle: string) | Equals(col: string, text: string) | BeginsWith(col: string,
      text: string)

  predicate Passes(post: Post, row: Row) {
    match post
    case HandleIs(col, handle) => col in row.plains && row.plains[col] == handle
    case Equals(col, text) => col in row.texts && row.texts[col] == text
    case BeginsWith(col, text) => col in row.texts && text <= row.texts[col]
  }

  type Bounds = map<string, (Option<int>, Option<int>)>

  /** Bounds and prefixes gathered per column, and the checks. */
  datatype Compiled = Compiled(bounds: Bounds, prefixes: map<string, string>, posts: seq<Post>)

  function SchemaOf(meta: Columns): Schema {
    map c | c in meta && !meta[c].StoredCol? ::
      FieldSpec(meta[c].Bits(),
                (match meta[c] case KeyCol(m) => m case IntCol(_, m) => m case TextCol(_, m) => m case StoredCol => 0),
                if meta[c].TextCol? then meta[c].chars else 0)
  }

  /** The record a row is indexed as. */
  function Encoded(meta: Columns, row: Row): Record {
    map c | c in meta
    && ((meta[c].TextCol? && c in row.texts) || ((meta[c].KeyCol? || meta[c].IntCol?) && c in row.ints)) ::
      if meta[c].TextCol? then Dyadic.Encoded(row.texts[c], meta[c].chars) else row.ints[c]
  }

  ghost predicate InBounds(bounds: Bounds, row: Row) {
    forall c :: c in bounds ==>
      c in row.ints && (bounds[c].0.Some? ==> bounds[c].0.value <= row.ints[c]) && (bounds[c].1.Some? ==>
          row.ints[c] <= bounds[c].1.value)
  }

  ghost predicate HasPrefixes(meta: Columns, prefixes: map<string, string>, row: Row) {
    forall c :: c in prefixes ==>
        c in meta && meta[c].TextCol? && c in row.texts && Dyadic.SharesPrefix(row.texts[c], prefixes[c], meta[c].chars)
  }

  ghost predicate PassesAll(posts: seq<Post>, row: Row) {
    forall p :: p in posts ==> Passes(p, row)
  }

  ghost predicate Accepts(meta: Columns, k: Compiled, row: Row) {
    InBounds(k.bounds, row) && HasPrefixes(meta, k.prefixes, row) && PassesAll(k.posts, row)
  }

  function Tighter(a: Option<int>, b: Option<int>, upper: bool): Option<int> {
    if a.None? then b
    else if b.None? then a
    else Some(if upper then Min(a.value, b.value) else Max(a.value, b.value))
  }

  /** Narrow a column's bounds. */
  function Narrow(bounds: Bounds, col: string, lo: Option<int>, hi: Option<int>): Bounds {
    var was := if col in bounds then bounds[col] else (None, None);
    bounds[col := (Tighter(was.0, lo, false), Tighter(was.1, hi, true))]
  }

  /** Take the first characters of a text as the column's prefix. */
  function Clipped(s: string, chars: nat): string {
    if |s| <= chars then s else s[..chars]
  }

  /** One condition taken in. */
  function Compile(meta: Columns, bucket: Bucketing, k: Compiled, c: Cond): Compiled
    requires c.col in meta && (IsText(c) ==> meta[c.col].TextCol?)
  {
    match c
    case Range(col, lo, hi) => k.(bounds := Narrow(k.bounds, col, lo, hi))
    case KeyIs(col, handle) =>
      var b := bucket(col, handle);
      k.(bounds := Narrow(k.bounds, col, Some(b), Some(b)), posts := k.posts + [HandleIs(col, handle)])
    case TextIs(col, text) =>
      k.(prefixes := k.prefixes[col := Clipped(text, meta[col].chars)], posts := k.posts + [Equals(col, text)])
    case Like(col, prefix) =>
      k.(prefixes := k.prefixes[col := Clipped(prefix, meta[col].chars)],
         posts := if |prefix| > meta[col].chars then k.posts + [BeginsWith(col, prefix)] else k.posts)
  }

  lemma NarrowMeans(bounds: Bounds, col: string, lo: Option<int>, hi: Option<int>, row: Row)
    ensures InBounds(Narrow(bounds, col, lo, hi), row) <==>
              InBounds(bounds, row) && col in row.ints && (lo.Some? ==> lo.value <= row.ints[col]) && (hi.Some? ==>
                  row.ints[col] <= hi.value)
  {
    var narrowed := Narrow(bounds, col, lo, hi);
    forall c | c in bounds && c != col ensures c in narrowed && narrowed[c] == bounds[c] {
    }
    assert col in narrowed;
  }

  lemma PrefixMeans(meta: Columns, prefixes: map<string, string>, col: string, pre: string, row: Row)
    requires col !in prefixes && col in meta && meta[col].TextCol?
    ensures HasPrefixes(meta, prefixes[col := pre], row) <==>
              HasPrefixes(meta, prefixes, row) && col in row.texts
              && Dyadic.SharesPrefix(row.texts[col], pre, meta[col].chars)
  {
    var more := prefixes[col := pre];
    forall c | c in prefixes ensures c in more && more[c] == prefixes[c] {
    }
    assert col in more;
  }

  lemma PostMeans(posts: seq<Post>, p: Post, row: Row)
    ensures PassesAll(posts + [p], row) <==> PassesAll(posts, row) && Passes(p, row)
  {
    assert p in posts + [p];
  }

  /** A clipped text shares its codes with any text that begins with it. */
  lemma ClippedShared(text: string, s: string, chars: nat)
    ensures text <= s ==> Dyadic.SharesPrefix(s, Clipped(text, chars), chars)
    ensures |text| <= chars ==> Clipped(text, chars) == text
  {
  }

  /** Compiling one more condition adds exactly what the condition asks. */
  lemma CompileMeans(meta: Columns, bucket: Bucketing, k: Compiled, c: Cond, row: Row)
    requires FitsColumn(meta, c) && (IsText(c) ==> c.col !in k.prefixes) && WellFormed(meta, bucket, row)
    ensures Accepts(meta, Compile(meta, bucket, k, c), row) <==> Accepts(meta, k, row) && Holds(meta, c, row)
  {
    hide InBounds, HasPrefixes, PassesAll, Dyadic.SharesPrefix, Clipped, Narrow;
    match c
    case Range(col, lo, hi) => NarrowMeans(k.bounds, col, lo, hi, row);
    case KeyIs(col, handle) =>
      var b := bucket(col, handle);
      NarrowMeans(k.bounds, col, Some(b), Some(b), row);
      PostMeans(k.posts, HandleIs(col, handle), row);
    case TextIs(col, text) =>
      PrefixMeans(meta, k.prefixes, col, Clipped(text, meta[col].chars), row);
      PostMeans(k.posts, Equals(col, text), row);
      ClippedShared(text, row.texts[col], meta[col].chars);
    case Like(col, prefix) =>
      PrefixMeans(meta, k.prefixes, col, Clipped(prefix, meta[col].chars), row);
      PostMeans(k.posts, BeginsWith(col, prefix), row);
      ClippedShared(prefix, row.texts[col], meta[col].chars);
  }

  // ------------------------------------------------------------ the cursor

  /** A cursor over tokens. */
  class Cursor {
    const toks: seq<Token>
    var i: nat

    constructor (toks: seq<Token>)
      ensures this.toks == toks && i == 0
    {
      this.toks, i := toks, 0;
    }

    method TryKw(word: string) returns (ok: bool)
      modifies this
      ensures ok <==> At(toks, old(i)) == Some(Kw(word))
      ensures i == if ok then old(i) + 1 else old(i)
    {
      ok := i < |toks| && toks[i] == Kw(word);
      if ok {
        i := i + 1;
      }
    }

    method EatOp(op: string) returns (ok: bool)
      modifies this
      ensures ok <==> At(toks, old(i)) == Some(Op(op))
      ensures i == if ok then old(i) + 1 else old(i)
    {
      ok := i < |toks| && toks[i] == Op(op);
      if ok {
        i := i + 1;
      }
    }

    method EatNum() returns (n: Option<nat>)
      modifies this
      ensures n == (match At(toks, old(i)) case Some(Num(x)) => Some(x) case _ => None)
      ensures i == if n.Some? then old(i) + 1 else old(i)
    {
      if i < |toks| && toks[i].Num? {
        n := Some(toks[i].n);
        i := i + 1;
      } else {
        n := None;
      }
    }

    method EatStr() returns (s: Option<string>)
      modifies this
      ensures s == (match At(toks, old(i)) case Some(Str(x)) => Some(x) case _ => None)
      ensures i == if s.Some? then old(i) + 1 else old(i)
    {
      if i < |toks| && toks[i].Str? {
        s := Some(toks[i].text);
        i := i + 1;
      } else {
        s := None;
      }
    }

    method EatIdent() returns (s: Option<string>)
      modifies this
      ensures s == (match At(toks, old(i)) case Some(Ident(x)) => Some(x) case _ => None)
      ensures i == if s.Some? then old(i) + 1 else old(i)
    {
      if i < |toks| && toks[i].Ident? {
        s := Some(toks[i].name);
        i := i + 1;
      } else {
        s := None;
      }
    }

    /** The value of a condition on a KEY column: a number or a text. */
    method HandleCond(col: string) returns (r: Option<Cond>)
      modifies this
      ensures r.Some? ==> AfterKey(col, toks, old(i)) == Some((r.value, i))
      ensures r.None? ==> AfterKey(col, toks, old(i)) == None
    {
      var eq := EatOp("=");
      if !eq {
        return None;
      }
      var n := EatNum();
      if n.Some? {
        return Some(KeyIs(col, Digits(n.value)));
      }
      var s := EatStr();
      if s.Some? {
        return Some(KeyIs(col, s.value));
      }
      return None;
    }

    /** What follows an INT column. */
    method IntCond(col: string) returns (r: Option<Cond>)
      modifies this
      ensures r.Some? ==> AfterInt(col, toks, old(i)) == Some((r.value, i))
      ensures r.None? ==> AfterInt(col, toks, old(i)) == None
    {
      hide Comparison;
      var between := TryKw("BETWEEN");
      if between {
        var lo := EatNum();
        if lo.None? {
          return None;
        }
        var and := TryKw("AND");
        if !and {
          return None;
        }
        var hi := EatNum();
        if hi.None? {
          return None;
        }
        return Some(Range(col, Some(lo.value), Some(hi.value)));
      }
      if i >= |toks| || !toks[i].Op? {
        return None;
      }
      var op := toks[i].op;
      i := i + 1;
      var n := EatNum();
      if n.None? {
        return None;
      }
      return Comparison(col, op, n.value);
    }

    /** What follows a TEXT column. */
    method TextCond(col: string) returns (r: Option<Cond>)
      modifies this
      ensures r.Some? ==> AfterText(col, toks, old(i)) == Some((r.value, i))
      ensures r.None? ==> AfterText(col, toks, old(i)) == None
    {
      hide PatternPrefix;
      var like := TryKw("LIKE");
      if like {
        var pat := EatStr();
        if pat.None? || PatternPrefix(pat.value).None? {
          return None;
        }
        return Some(Like(col, PatternPrefix(pat.value).value));
      }
      var eq := EatOp("=");
      if !eq {
        return None;
      }
      var text := EatStr();
      return if text.Some? then Some(TextIs(col, text.value)) else None;
    }

    /** One condition. */
    method EatCond(meta: Columns) returns (r: Option<Cond>)
      modifies this
      ensures r.Some? ==> ReadCond(meta, toks, old(i)) == Some((r.value, i))
      ensures r.None? ==> ReadCond(meta, toks, old(i)) == None
      ensures r.Some? ==>
                && old(i) < i <= |toks| && WellWritten(meta, toks[old(i)..i]) && FitsColumn(meta, r.value)
                && forall row :: Holds(meta, r.value, row) <==> Says(meta, toks[old(i)..i], row)
      ensures r.None? ==> forall j :: old(i) <= j <= |toks| ==> !WellWritten(meta, toks[old(i)..j])
    {
      hide WellWritten, Says, Holds, FitsColumn, AfterKey, AfterInt, AfterText;
      CondMeans(meta, toks, i);
      var col := EatIdent();
      if col.None? || col.value !in meta {
        return None;
      }
      match meta[col.value] {
        case StoredCol => return None;
        case KeyCol(_) => r := HandleCond(col.value);
        case IntCol(_, _) => r := IntCond(col.value);
        case TextCol(_, _) => r := TextCond(col.value);
      }
    }

    /** The clause, compiled condition by condition into bounds, prefixes and checks; nothing when it is refused. */
    method Gather(meta: Columns, bucket: Bucketing) returns (r: Option<Compiled>, ghost conds: seq<Cond>)
      modifies this
      ensures r.Some? <==> ReadAll(meta, toks, old(i), {}).Some?
      ensures r.Some? ==> ReadAll(meta, toks, old(i), {}) == Some((conds, i))
      ensures r.Some? ==> (forall c :: c in conds ==> FitsColumn(meta, c)) && BoundsFit(meta, r.value)
      ensures r.Some? ==> forall row :: WellFormed(meta, bucket, row) ==>
                (Accepts(meta, r.value, row) <==> AllHold(meta, conds, row))
    {
      hide ReadCond, Compile, Accepts, WellFormed, Holds, FitsColumn, WellWritten, Says;
      var k := Compiled(map[], map[], []);
      conds := [];
      NothingAsked(meta);
      ghost var start := i;
      var more := true;
      while more
        invariant TextsOf(conds) == k.prefixes.Keys && BoundsFit(meta, k) && forall c :: c in conds ==>
                    FitsColumn(meta, c)
        invariant forall row :: WellFormed(meta, bucket, row) ==> (Accepts(meta, k, row) <==> AllHold(meta, conds, row))
        invariant more ==> Joined(conds, ReadAll(meta, toks, i, TextsOf(conds))) == ReadAll(meta, toks, start, {})
        invariant !more ==> ReadAll(meta, toks, start, {}) == Some((conds, i))
        invariant i <= |toks| || i == start
        decreases more, |toks| - i
      {
        ReadCondFits(meta, toks, i);
        ghost var at := i;
        var c := EatCond(meta);
        if c.None? || (IsText(c.value) && c.value.col in k.prefixes) {
          return None, [];
        }
        TextFits(meta, c.value);
        forall row: Row | WellFormed(meta, bucket, row)
          ensures Accepts(meta, Compile(meta, bucket, k, c.value), row) <==> AllHold(meta, conds + [c.value], row)
        {
          CompileMeans(meta, bucket, k, c.value, row);
          OneMoreHolds(meta, conds, c.value, row);
        }
        CompileFits(meta, bucket, k, c.value);
        TextsGrow(conds, c.value);
        k := Compile(meta, bucket, k, c.value);
        ghost var before := conds;
        conds := conds + [c.value];
        ghost var j := i;
        more := TryKw("AND");
        ReadOneMore(meta, toks, at, before, c.value, j);
      }
      return Some(k), conds;
    }
  }

  ghost predicate AllHold(meta: Columns, conds: seq<Cond>, row: Row)
    requires forall c :: c in conds ==> FitsColumn(meta, c)
  {
    forall c :: c in conds ==> Holds(meta, c, row)
  }

  /** Bounds are on numbered columns, prefixes on text columns. */
  ghost predicate BoundsFit(meta: Columns, k: Compiled) {
    && (forall c :: c in k.bounds ==> c in meta && (meta[c].KeyCol? || meta[c].IntCol?))
    && (forall c :: c in k.prefixes ==> c in meta && meta[c].TextCol?)
  }

  function TextsOf(conds: seq<Cond>): set<string> {
    set c | c in conds && IsText(c) :: c.col
  }

  function Joined(before: seq<Cond>, rest: Option<(seq<Cond>, nat)>): Option<(seq<Cond>, nat)> {
    match rest
    case None => None
    case Some((conds, end)) => Some((before + conds, end))
  }

  lemma NothingAsked(meta: Columns)
    ensures forall row :: Accepts(meta, Compiled(map[], map[], []), row) && AllHold(meta, [], row)
    ensures TextsOf([]) == {}
    ensures forall rest :: Joined([], rest) == rest
  {
    forall rest: Option<(seq<Cond>, nat)> ensures Joined([], rest) == rest {
      if rest.Some? {
        assert [] + rest.value.0 == rest.value.0;
      }
    }
  }

  lemma TextFits(meta: Columns, c: Cond)
    requires FitsColumn(meta, c)
    ensures c.col in meta && (IsText(c) ==> meta[c.col].TextCol?)
  {
  }

  lemma OneMoreHolds(meta: Columns, conds: seq<Cond>, c: Cond, row: Row)
    requires FitsColumn(meta, c) && forall x :: x in conds ==> FitsColumn(meta, x)
    ensures AllHold(meta, conds + [c], row) <==> AllHold(meta, conds, row) && Holds(meta, c, row)
  {
    hide Holds, FitsColumn;
    assert c in conds + [c];
  }

  lemma CompileFits(meta: Columns, bucket: Bucketing, k: Compiled, c: Cond)
    requires FitsColumn(meta, c) && BoundsFit(meta, k)
    ensures BoundsFit(meta, Compile(meta, bucket, k, c))
    ensures Compile(meta, bucket, k, c).prefixes.Keys == k.prefixes.Keys + if IsText(c) then {c.col} else {}
  {
  }

  lemma TextsGrow(conds: seq<Cond>, c: Cond)
    ensures TextsOf(conds + [c]) == TextsOf(conds) + if IsText(c) then {c.col} else {}
  {
  }

  /** Reading on after one more condition. */
  lemma ReadOneMore(meta: Columns, toks: seq<Token>, i: nat, before: seq<Cond>, c: Cond, j: nat)
    requires ReadCond(meta, toks, i) == Some((c, j)) && !(IsText(c) && c.col in TextsOf(before))
    ensures var all := Joined(before, ReadAll(meta, toks, i, TextsOf(before)));
            if At(toks, j) == Some(Kw("AND"))
              then all == Joined(before + [c], ReadAll(meta, toks, j + 1, TextsOf(before + [c])))
            else all == Some((before + [c], j))
  {
    hide ReadCond;
    TextsGrow(before, c);
    assert TextsOf(before) + {} == TextsOf(before);
    if At(toks, j) == Some(Kw("AND")) {
      var rest := ReadAll(meta, toks, j + 1, TextsOf(before + [c]));
      if rest.Some? {
        assert before + ([c] + rest.value.0) == (before + [c]) + rest.value.0;
      }
    }
  }

  // ------------------------------------------------------------ the clause as a query

  /** Nothing can match; or ranges and prefixes for the index, and checks on what it returns. */
  datatype Clause = Nothing | Ask(preds: seq<Predicate>, posts: seq<Post>)

  function Low(b: (Option<int>, Option<int>)): int {
    if b.0.None? then 0 else Max(0, b.0.value)
  }

  function High(meta: Columns, c: string, b: (Option<int>, Option<int>)): int
    requires c in meta
  {
    var top := Pow2(meta[c].Bits()) - 1;
    if b.1.None? then top else Min(top, b.1.value)
  }

  /** What the index and the checks together let through. */
  ghost predicate Selects(meta: Columns, q: Clause, row: Row)
    requires q.Ask? ==> KnownFields(SchemaOf(meta), q.preds)
  {
    q.Ask? && (forall p :: p in q.preds ==> Satisfies(SchemaOf(meta), Encoded(meta, row), p)) && PassesAll(q.posts, row)
  }

  ghost predicate BoundHolds(bounds: Bounds, row: Row, c: string) {
    c in bounds ==>
      c in row.ints && (bounds[c].0.Some? ==> bounds[c].0.value <= row.ints[c]) && (bounds[c].1.Some? ==>
          row.ints[c] <= bounds[c].1.value)
  }

  /** A range clamped to the column's domain asks what the bounds ask of any row that was let in. */
  lemma RangeMeans(meta: Columns, bucket: Bucketing, bounds: Bounds, c: string, row: Row)
    requires Buckets(bucket) && WellFormed(meta, bucket, row) && c in bounds && c in meta
             && (meta[c].KeyCol? || meta[c].IntCol?)
    ensures Satisfies(SchemaOf(meta), Encoded(meta, row), Between(c, Low(bounds[c]), High(meta, c, bounds[c]))) <==>
              BoundHolds(bounds, row, c)
    ensures Low(bounds[c]) > High(meta, c, bounds[c]) ==> !BoundHolds(bounds, row, c)
  {
    assert 0 <= row.ints[c] < Pow2(meta[c].Bits());
    assert c in Encoded(meta, row) && Encoded(meta, row)[c] == row.ints[c];
    assert SchemaOf(meta)[c].bits == meta[c].Bits();
  }

  /** A prefix range asks for the shared codes. */
  lemma StartMeans(meta: Columns, bucket: Bucketing, c: string, prefix: string, row: Row)
    requires WellFormed(meta, bucket, row) && c in meta && meta[c].TextCol?
    ensures Satisfies(SchemaOf(meta), Encoded(meta, row), StartsWith(c, prefix)) <==>
              Dyadic.SharesPrefix(row.texts[c], prefix, meta[c].chars)
  {
    var chars := meta[c].chars;
    assert c in Encoded(meta, row) && Encoded(meta, row)[c] == Dyadic.Encoded(row.texts[c], chars);
    assert SchemaOf(meta)[c] == FieldSpec(5 * chars, meta[c].mlvl, chars);
    Dyadic.PrefixRangeExact(row.texts[c], prefix, chars);
    Dyadic.EncodedInDomain(row.texts[c], chars);
  }

  function RangeFor(meta: Columns, bounds: Bounds, c: string): Predicate
    requires c in bounds && c in meta
  {
    Between(c, Low(bounds[c]), High(meta, c, bounds[c]))
  }

  ghost predicate OneEach(preds: seq<Predicate>) {
    forall i, j :: 0 <= i < j < |preds| ==> preds[i].field != preds[j].field
  }

  /** The ranges of some columns and the prefixes of some others, each once. */
  ghost predicate Built(meta: Columns, k: Compiled, ranged: set<string>, prefixed: set<string>, preds: seq<Predicate>)
    requires ranged <= k.bounds.Keys && prefixed <= k.prefixes.Keys && BoundsFit(meta, k)
  {
    && OneEach(preds)
    && (forall p :: p in preds ==> (p.field in ranged && p == RangeFor(meta, k.bounds, p.field))
                                   || (p.field in prefixed && p == StartsWith(p.field, k.prefixes[p.field])))
    && (forall c :: c in ranged ==> RangeFor(meta, k.bounds, c) in preds)
    && (forall c :: c in prefixed ==> StartsWith(c, k.prefixes[c]) in preds)
  }

  lemma BuiltKnown(meta: Columns, k: Compiled, preds: seq<Predicate>)
    requires BoundsFit(meta, k) && Built(meta, k, k.bounds.Keys, k.prefixes.Keys, preds)
    ensures KnownFields(SchemaOf(meta), preds)
  {
  }

  /** The finished query lets through exactly the rows the bounds, prefixes and checks accept. */
  lemma BuiltMeans(meta: Columns, bucket: Bucketing, k: Compiled, preds: seq<Predicate>, row: Row)
    requires Buckets(bucket) && BoundsFit(meta, k) && Built(meta, k, k.bounds.Keys, k.prefixes.Keys, preds)
             && WellFormed(meta, bucket, row)
    requires KnownFields(SchemaOf(meta), preds)
    ensures Selects(meta, Ask(preds, k.posts), row) <==> Accepts(meta, k, row)
  {
    hide Satisfies, SchemaOf, Encoded, Low, High, PassesAll, WellFormed, Dyadic.SharesPrefix, Buckets, OneEach;
    RowHasTexts(meta, bucket, row);
    forall c | c in k.bounds
      ensures Satisfies(SchemaOf(meta), Encoded(meta, row), RangeFor(meta, k.bounds, c)) <==>
                BoundHolds(k.bounds, row, c)
    {
      RangeMeans(meta, bucket, k.bounds, c, row);
    }
    forall c | c in k.prefixes
      ensures Satisfies(SchemaOf(meta), Encoded(meta, row), StartsWith(c, k.prefixes[c])) <==>
                c in row.texts && Dyadic.SharesPrefix(row.texts[c], k.prefixes[c], meta[c].chars)
    {
      StartMeans(meta, bucket, c, k.prefixes[c], row);
    }
    BoundByBound(k.bounds, row);
  }

  lemma RowHasTexts(meta: Columns, bucket: Bucketing, row: Row)
    requires WellFormed(meta, bucket, row)
    ensures forall c :: c in meta && meta[c].TextCol? ==> c in row.texts
  {
  }

  lemma BoundByBound(bounds: Bounds, row: Row)
    ensures InBounds(bounds, row) <==> forall c :: c in bounds ==> BoundHolds(bounds, row, c)
  {
  }

  lemma EmptyRange(meta: Columns, bucket: Bucketing, k: Compiled, c: string, row: Row)
    requires Buckets(bucket) && BoundsFit(meta, k) && WellFormed(meta, bucket, row) && c in k.bounds
             && Low(k.bounds[c]) > High(meta, c, k.bounds[c])
    ensures !Accepts(meta, k, row)
  {
    hide Satisfies, SchemaOf, Encoded, WellFormed, Buckets, Low, High;
    RangeMeans(meta, bucket, k.bounds, c, row);
    BoundByBound(k.bounds, row);
  }

  lemma BuiltNone(meta: Columns, k: Compiled)
    requires BoundsFit(meta, k)
    ensures Built(meta, k, {}, {}, [])
  {
  }

  lemma BuiltRange(meta: Columns, k: Compiled, ranged: set<string>, preds: seq<Predicate>, c: string)
    requires BoundsFit(meta, k) && ranged <= k.bounds.Keys && Built(meta, k, ranged, {}, preds) && c in k.bounds
             && c !in ranged
    ensures Built(meta, k, ranged + {c}, {}, preds + [RangeFor(meta, k.bounds, c)])
  {
    hide Low, High;
    var p := RangeFor(meta, k.bounds, c);
    assert p in preds + [p];
    forall x | x in ranged ensures RangeFor(meta, k.bounds, x) in preds + [p] {
    }
    NewField(preds, p);
  }

  lemma NewField(preds: seq<Predicate>, p: Predicate)
    requires OneEach(preds) && forall q :: q in preds ==> q.field != p.field
    ensures OneEach(preds + [p])
  {
  }

  lemma BuiltPrefix(meta: Columns, k: Compiled, prefixed: set<string>, preds: seq<Predicate>, c: string)
    requires BoundsFit(meta, k) && prefixed <= k.prefixes.Keys && Built(meta, k, k.bounds.Keys, prefixed, preds)
             && c in k.prefixes && c !in prefixed
    ensures Built(meta, k, k.bounds.Keys, prefixed + {c}, preds + [StartsWith(c, k.prefixes[c])])
  {
    hide Low, High, RangeFor;
    var p := StartsWith(c, k.prefixes[c]);
    assert p in preds + [p];
    forall x | x in k.bounds ensures RangeFor(meta, k.bounds, x) in preds + [p] {
    }
    NewField(preds, p);
  }

  /** Clamp the bounds to the domains and lay out the query; a range that is empty can match nothing. */
  method Finish(meta: Columns, bucket: Bucketing, k: Compiled) returns (q: Clause)
    requires BoundsFit(meta, k)
    ensures q.Nothing? ==> Buckets(bucket) ==> forall row :: WellFormed(meta, bucket, row) ==> !Accepts(meta, k, row)
    ensures q.Ask? ==> KnownFields(SchemaOf(meta), q.preds) && OneEach(q.preds)
    ensures q.Ask? && Buckets(bucket) ==> forall row :: WellFormed(meta, bucket, row) ==>
              (Selects(meta, q, row) <==> Accepts(meta, k, row))
  {
    hide Selects, Accepts, WellFormed, Built, BoundsFit, OneEach, Buckets, SchemaOf;
    FitCols(meta, k);
    var preds: seq<Predicate> := [];
    var todo := k.bounds.Keys;
    ghost var done: set<string> := {};
    BuiltNone(meta, k);
    while todo != {}
      invariant todo + done == k.bounds.Keys && todo !! done && Built(meta, k, done, {}, preds)
      decreases todo
    {
      var c :| c in todo;
      if Low(k.bounds[c]) > High(meta, c, k.bounds[c]) {
        if Buckets(bucket) {
          forall row: Row | WellFormed(meta, bucket, row) ensures !Accepts(meta, k, row) {
            EmptyRange(meta, bucket, k, c, row);
          }
        }
        return Nothing;
      }
      BuiltRange(meta, k, done, preds, c);
      preds := preds + [RangeFor(meta, k.bounds, c)];
      todo, done := todo - {c}, done + {c};
    }
    todo, done := k.prefixes.Keys, {};
    while todo != {}
      invariant todo + done == k.prefixes.Keys && todo !! done && Built(meta, k, k.bounds.Keys, done, preds)
      decreases todo
    {
      var c :| c in todo;
      BuiltPrefix(meta, k, done, preds, c);
      preds := preds + [StartsWith(c, k.prefixes[c])];
      todo, done := todo - {c}, done + {c};
    }
    assert done == k.prefixes.Keys;
    BuiltKnown(meta, k, preds);
    BuiltOnce(meta, k, preds);
    if Buckets(bucket) {
      forall row: Row | WellFormed(meta, bucket, row) ensures Selects(meta, Ask(preds, k.posts), row) <==>
          Accepts(meta, k, row) {
        BuiltMeans(meta, bucket, k, preds, row);
      }
    }
    return Ask(preds, k.posts);
  }

  lemma FitCols(meta: Columns, k: Compiled)
    requires BoundsFit(meta, k)
    ensures forall c :: c in k.bounds ==> c in meta
  {
  }

  lemma BuiltOnce(meta: Columns, k: Compiled, preds: seq<Predicate>)
    requires BoundsFit(meta, k) && Built(meta, k, k.bounds.Keys, k.prefixes.Keys, preds)
    ensures OneEach(preds)
  {
  }

  /** Compile a WHERE clause. It is refused exactly when no clause stands there, and otherwise selects exactly the rows
      of which every one of its conditions is true, with one predicate per column; a contradiction selects none. */
  method Where(toks: seq<Token>, meta: Columns, bucket: Bucketing) returns (r: Option<Clause>, ghost conds: seq<Cond>)
    ensures r.Some? <==> exists pieces :: Clauses(meta, toks, pieces, {})
    ensures r.Some? && r.value.Ask? ==> KnownFields(SchemaOf(meta), r.value.preds) && OneEach(r.value.preds)
    ensures r.Some? && Buckets(bucket) ==> forall pieces :: Clauses(meta, toks, pieces, {}) ==>
              forall row :: WellFormed(meta, bucket, row) ==>
                (Selects(meta, r.value, row) <==> AllSay(meta, pieces, row))
    ensures r.Some? <==> ReadAll(meta, toks, 0, {}).Some?
    ensures r.Some? ==> conds == ReadAll(meta, toks, 0, {}).value.0 && forall c :: c in conds ==> FitsColumn(meta, c)
    ensures r.Some? && Buckets(bucket) ==> forall row :: WellFormed(meta, bucket, row) ==>
              (Selects(meta, r.value, row) <==> AllHold(meta, conds, row))
  {
    hide Accepts, WellFormed, AllHold, OneEach, Buckets, SchemaOf, BoundsFit, FitsColumn, ReadAll, Clauses, AllSay,
      Selects;
    ClauseMeans(meta, toks);
    var p := new Cursor(toks);
    var k;
    k, conds := p.Gather(meta, bucket);
    if k.None? {
      return None, [];
    }
    var q := Finish(meta, bucket, k.value);
    if Buckets(bucket) {
      SelectsAsRead(meta, bucket, k.value, q, conds);
      forall pieces | Clauses(meta, toks, pieces, {})
        ensures forall row :: WellFormed(meta, bucket, row) ==>
                  (Selects(meta, q, row) <==> AllSay(meta, pieces, row)) {
      }
    }
    return Some(q), conds;
  }

  lemma SelectsAsRead(meta: Columns, bucket: Bucketing, k: Compiled, q: Clause, conds: seq<Cond>)
    requires q.Ask? ==> KnownFields(SchemaOf(meta), q.preds)
    requires forall c :: c in conds ==> FitsColumn(meta, c)
    requires q.Nothing? ==> forall row :: WellFormed(meta, bucket, row) ==> !Accepts(meta, k, row)
    requires q.Ask? ==> forall row :: WellFormed(meta, bucket, row) ==>
               (Selects(meta, q, row) <==> Accepts(meta, k, row))
    requires forall row :: WellFormed(meta, bucket, row) ==> (Accepts(meta, k, row) <==> AllHold(meta, conds, row))
    ensures forall row :: WellFormed(meta, bucket, row) ==> (Selects(meta, q, row) <==> AllHold(meta, conds, row))
  {
    hide WellFormed, Accepts, AllHold, SchemaOf, FitsColumn;
    if q.Ask? {
      hide Selects;
    }
  }

  /** A whole clause in terms of what is written. */
  lemma ClauseMeans(meta: Columns, toks: seq<Token>)
    ensures ReadAll(meta, toks, 0, {}).Some? <==> exists pieces :: Clauses(meta, toks, pieces, {})
    ensures forall pieces :: Clauses(meta, toks, pieces, {}) ==>
              var conds := ReadAll(meta, toks, 0, {}).value.0;
              && (forall c :: c in conds ==> FitsColumn(meta, c))
              && forall row :: AllHold(meta, conds, row) <==> AllSay(meta, pieces, row)
  {
    hide ReadAll, Clauses, FitsColumn, AllHold, AllSay;
    assert toks[0..] == toks;
    if ReadAll(meta, toks, 0, {}).Some? {
      var pieces := ReadIsClause(meta, toks, 0, {});
    }
    forall pieces | Clauses(meta, toks, pieces, {})
      ensures ReadAll(meta, toks, 0, {}).Some?
      ensures var conds := ReadAll(meta, toks, 0, {}).value.0;
              && (forall c :: c in conds ==> FitsColumn(meta, c))
              && forall row :: AllHold(meta, conds, row) <==> AllSay(meta, pieces, row)
    {
      ClauseIsRead(meta, toks, 0, pieces, {});
    }
  }
}
