/** GetS3Key: nine textual replacements made one after another, against one simultaneous substitution. */
module S3Key {
  import opened Wrappers

  /** strings.Replace(s, from, to, -1) for a non-empty from. */
  function Replace(s: string, from: string, to: string): string
    requires from != ""
  {
    if |s| < |from| then s
    else if from <= s then to + Replace(s[|from|..], from, to)
    else [s[0]] + Replace(s[1..], from, to)
  }

  /** A name that starts with its only '$'. */
  predicate Name(m: string) {
    m != "" && m[0] == '$' && forall i | 1 <= i < |m| :: m[i] != '$'
  }

  type Marks = m: seq<string> | forall k | 0 <= k < |m| :: Name(m[k])

  /** a and b differ at a place that both have, so neither is a prefix of the other. */
  ghost predicate Differ(a: string, b: string) {
    exists i: nat :: i < |a| && i < |b| && a[i] != b[i]
  }

  /** Placeholders that cannot be mistaken for each other. */
  ghost predicate Distinct(marks: Marks) {
    forall j, k | 0 <= j < |marks| && 0 <= k < |marks| && j != k :: Differ(marks[j], marks[k])
  }

  /** The placeholders in the order GetS3Key replaces them. */
  const PLACEHOLDERS: Marks := ["$fileName", "$fileExtension", "$browserName", "$browserVersion", "$platformName",
                         "$quota", "$sessionId", "$fileType", "$date"]

  predicate InRange(order: seq<nat>, n: nat) { forall i | 0 <= i < |order| :: order[i] < n }

  /** The replacements named in order, one after another. */
  function ReplaceAll(s: string, order: seq<nat>, marks: Marks, values: seq<string>): string
    requires |values| == |marks| && InRange(order, |marks|)
    decreases |order|
  {
    if order == [] then s
    else ReplaceAll(Replace(s, marks[order[0]], values[order[0]]), order[1..], marks, values)
  }

  function UpTo(n: nat): (order: seq<nat>)
    ensures |order| == n && forall i | 0 <= i < n :: order[i] == i
  {
    seq(n, i => i)
  }

  /** One replacement for each placeholder in turn, and then the spaces. */
  function Key(pattern: string, marks: Marks, values: seq<string>): string
    requires |values| == |marks|
  {
    Replace(ReplaceAll(pattern, UpTo(|marks|), marks, values), " ", "-")
  }

  /** What the hub knows of the file, already lower-cased where it does so. */
  datatype Upload = Upload(fileName: string, extension: string, browser: string, version: string, platform: string,
                           quota: string, sessionId: string, fileType: string, date: string)
  {
    function Values(): (values: seq<string>)
      ensures |values| == 9
    {
      [fileName, extension, browser, version, platform, quota, sessionId, fileType, date]
    }
  }

  function GetS3Key(pattern: string, values: seq<string>): string
    requires |values| == |PLACEHOLDERS|
  {
    Key(pattern, PLACEHOLDERS, values)
  }

  /** The key of an upload; a session may bring its own pattern. */
  function UploadKey(pattern: string, own: string, u: Upload): string {
    GetS3Key(if own != "" then own else pattern, u.Values())
  }

  /** The place where two placeholders differ: "$file..." and "$browser..." share a prefix. */
  lemma DifferAt(j: nat, k: nat) returns (i: nat)
    requires j < |PLACEHOLDERS| && k < |PLACEHOLDERS| && j != k
    ensures i < |PLACEHOLDERS[j]| && i < |PLACEHOLDERS[k]| && PLACEHOLDERS[j][i] != PLACEHOLDERS[k][i]
  {
    i := if j in {0, 1, 7} && k in {0, 1, 7} then 5 else if j in {2, 3} && k in {2, 3} then 8 else 1;
  }

  /** No placeholder of the hub is a prefix of another. */
  lemma PlaceholdersDistinct()
    ensures Distinct(PLACEHOLDERS)
  {
    forall j, k | 0 <= j < |PLACEHOLDERS| && 0 <= k < |PLACEHOLDERS| && j != k
      ensures Differ(PLACEHOLDERS[j], PLACEHOLDERS[k])
    {
      var i := DifferAt(j, k);
    }
  }

  // The simultaneous substitution.

  /** The placeholder that s starts with, looking from k on. */
  function Starting(s: string, marks: Marks, k: nat): (r: Option<nat>)
    ensures r.Some? ==> k <= r.value < |marks| && marks[r.value] <= s
    ensures r.None? ==> forall j | k <= j < |marks| :: !(marks[j] <= s)
    decreases |marks| - k
  {
    if k >= |marks| then None else if marks[k] <= s then Some(k) else Starting(s, marks, k + 1)
  }

  /** One pass from the left: every placeholder of the pattern becomes its value, all else stays. */
  function Substitute(s: string, marks: Marks, values: seq<string>): string
    requires |values| == |marks|
  {
    if s == "" then ""
    else match Starting(s, marks, 0)
      case None => [s[0]] + Substitute(s[1..], marks, values)
      case Some(k) => values[k] + Substitute(s[|marks[k]|..], marks, values)
  }

  /** The same pass, but only the placeholders in done become their values. */
  function Partly(s: string, done: set<nat>, marks: Marks, values: seq<string>): string
    requires |values| == |marks|
  {
    if s == "" then ""
    else match Starting(s, marks, 0)
      case None => [s[0]] + Partly(s[1..], done, marks, values)
      case Some(k) => (if k in done then values[k] else marks[k]) + Partly(s[|marks[k]|..], done, marks, values)
  }

  /** Every '$' of the pattern starts a placeholder. */
  predicate WellFormed(s: string, marks: Marks) {
    s == "" ||
    match Starting(s, marks, 0)
    case None => s[0] != '$' && WellFormed(s[1..], marks)
    case Some(k) => WellFormed(s[|marks[k]|..], marks)
  }

  function Dashed(s: string): string {
    if s == "" then "" else [if s[0] == ' ' then '-' else s[0]] + Dashed(s[1..])
  }

  // A pattern as a sequence of pieces.

  datatype Piece = Text(s: string) | Hole(k: nat)
  {
    predicate Fits(n: nat) { Hole? ==> k < n }
  }

  ghost predicate Clear(ps: seq<Piece>, n: nat) {
    forall i | 0 <= i < |ps| :: ps[i].Fits(n)
  }

  function Shown(p: Piece, marks: Marks): string
    requires p.Fits(|marks|)
  {
    match p case Text(s) => s case Hole(k) => marks[k]
  }

  function Flat(ps: seq<Piece>, marks: Marks): string
    requires Clear(ps, |marks|)
  {
    if ps == [] then "" else Shown(ps[0], marks) + Flat(ps[1..], marks)
  }

  function Filled(p: Piece, done: set<nat>, values: seq<string>): Piece
    requires p.Fits(|values|)
  {
    if p.Hole? && p.k in done then Text(values[p.k]) else p
  }

  /** ps with the holes in done filled. */
  function Fill(ps: seq<Piece>, done: set<nat>, values: seq<string>): (r: seq<Piece>)
    requires Clear(ps, |values|)
    ensures |r| == |ps| && forall i | 0 <= i < |ps| :: r[i] == Filled(ps[i], done, values)
    ensures Clear(r, |values|)
  {
    if ps == [] then [] else [Filled(ps[0], done, values)] + Fill(ps[1..], done, values)
  }

  // What one replacement does to a sequence of pieces.

  lemma ReplaceStep(s: string, from: string, to: string)
    requires s != "" && from != "" && !(from <= s)
    ensures Replace(s, from, to) == [s[0]] + Replace(s[1..], from, to)
  {
    assert s == [s[0]] + s[1..];
  }

  lemma HeadAndTail(t: string, rest: string)
    requires t != ""
    ensures [t[0]] + (t[1..] + rest) == t + rest
    ensures (t + rest)[0] == t[0] && (t + rest)[1..] == t[1..] + rest
  {
  }

  /** m starts nowhere in t, though it may run on into rest. */
  ghost predicate Passes(m: string, t: string, rest: string) {
    forall i | 0 <= i < |t| :: !(m <= (t + rest)[i..])
  }

  lemma PassesLetter(m: string, t: string, rest: string)
    requires t != ""
    ensures Passes(m, t, rest) <==> !(m <= t + rest) && Passes(m, t[1..], rest)
  {
    assert (t + rest)[0..] == t + rest;
    forall i | 0 <= i < |t[1..]| ensures (t[1..] + rest)[i..] == (t + rest)[i + 1..] {
    }
    if !(m <= t + rest) && Passes(m, t[1..], rest) {
      forall i | 0 <= i < |t| ensures !(m <= (t + rest)[i..]) {
        if i > 0 {
          assert (t + rest)[i..] == (t[1..] + rest)[i - 1..];
        }
      }
    }
  }

  /** Text in which from does not start is passed over. */
  lemma {:induction false} ReplaceText(t: string, rest: string, from: string, to: string)
    requires from != "" && Passes(from, t, rest)
    ensures Replace(t + rest, from, to) == t + Replace(rest, from, to)
  {
    if t == "" {
      assert t + rest == rest;
    } else {
      HeadAndTail(t, rest);
      assert !(from <= (t + rest)[0..]) && (t + rest)[0..] == t + rest;
      ReplaceStep(t + rest, from, to);
      PassesLetter(from, t, rest);
      ReplaceText(t[1..], rest, from, to);
      HeadAndTail(t, Replace(rest, from, to));
    }
  }

  /** Another name is passed over. */
  lemma ReplaceOther(p: string, from: string, rest: string, to: string)
    requires Name(p) && Name(from) && Differ(p, from)
    ensures Replace(p + rest, from, to) == p + Replace(rest, from, to)
  {
    var d: nat :| d < |p| && d < |from| && p[d] != from[d];
    forall i | 0 <= i < |p| ensures !(from <= (p + rest)[i..]) {
      if i == 0 {
        assert (p + rest)[i..][d] == p[d];
      } else {
        assert (p + rest)[i..][0] == p[i];
      }
    }
    ReplaceText(p, rest, from, to);
  }

  lemma ReplaceOwn(from: string, rest: string, to: string)
    requires from != ""
    ensures Replace(from + rest, from, to) == to + Replace(rest, from, to)
  {
    assert (from + rest)[|from|..] == rest;
  }

  /** Replacing a name by itself changes nothing. */
  lemma {:induction false} ReplaceSame(s: string, from: string)
    requires from != ""
    ensures Replace(s, from, from) == s
  {
    if |s| >= |from| {
      if from <= s {
        ReplaceSame(s[|from|..], from);
        assert s == from + s[|from|..];
      } else {
        ReplaceSame(s[1..], from);
        assert s == [s[0]] + s[1..];
      }
    }
  }

  /** m does not start within a text piece. */
  ghost predicate Free(ps: seq<Piece>, m: string, marks: Marks)
    requires Clear(ps, |marks|)
  {
    ps == [] || (Free(ps[1..], m, marks) && (ps[0].Text? ==> Passes(m, ps[0].s, Flat(ps[1..], marks))))
  }

  lemma {:induction false} ReplacePieces(ps: seq<Piece>, k: nat, marks: Marks, values: seq<string>)
    requires Distinct(marks) && |values| == |marks| && Clear(ps, |marks|) && k < |marks| && Free(ps, marks[k], marks)
    ensures Replace(Flat(ps, marks), marks[k], values[k]) == Flat(Fill(ps, {k}, values), marks)
  {
    if ps != [] {
      ReplacePieces(ps[1..], k, marks, values);
      var rest := Flat(ps[1..], marks);
      assert Fill(ps, {k}, values)[1..] == Fill(ps[1..], {k}, values);
      match ps[0]
      case Text(s) =>
        ReplaceText(s, rest, marks[k], values[k]);
      case Hole(j) =>
        if j == k {
          ReplaceOwn(marks[k], rest, values[k]);
        } else {
          ReplaceOther(marks[j], marks[k], rest, values[k]);
        }
    }
  }

  /** Filling a hole with its own name changes nothing. */
  lemma {:induction false} FillSame(ps: seq<Piece>, k: nat, marks: Marks, values: seq<string>)
    requires |values| == |marks| && Clear(ps, |marks|) && k < |marks| && values[k] == marks[k]
    ensures Flat(Fill(ps, {k}, values), marks) == Flat(ps, marks)
  {
    if ps != [] {
      FillSame(ps[1..], k, marks, values);
      assert Fill(ps, {k}, values)[1..] == Fill(ps[1..], {k}, values);
    }
  }

  // Names that the pieces spell.

  lemma StartsWithDollar(m: string, rest: string)
    requires Name(m)
    ensures (m + rest)[0] == '$'
  {
  }

  /** A prefix of two strings is a prefix of the first, or the first and a prefix of the second. */
  lemma StartsAcross(m: string, u: string, rest: string)
    ensures |m| <= |u| ==> (m <= u + rest <==> m <= u)
    ensures |m| > |u| ==> (m <= u + rest <==> u <= m && m[|u|..] <= rest)
  {
    if |m| <= |u| {
      assert (u + rest)[..|m|] == u[..|m|];
    } else if |m| <= |u| + |rest| {
      assert (u + rest)[..|m|] == u + rest[..|m| - |u|];
      assert m == m[..|u|] + m[|u|..];
    }
  }

  /** Letters that the pieces start with are still there when holes are filled: a hole starts with '$'. */
  lemma {:induction false} PlainSurvives(w: string, ps: seq<Piece>, done: set<nat>, marks: Marks, values: seq<string>)
    requires |values| == |marks| && Clear(ps, |marks|)
    requires '$' !in w && w <= Flat(ps, marks)
    ensures w <= Flat(Fill(ps, done, values), marks)
  {
    if w != "" && ps != [] {
      assert Fill(ps, done, values)[1..] == Fill(ps[1..], done, values);
      match ps[0]
      case Hole(j) =>
        StartsWithDollar(marks[j], Flat(ps[1..], marks));
      case Text(s) =>
        StartsAcross(w, s, Flat(ps[1..], marks));
        StartsAcross(w, s, Flat(Fill(ps[1..], done, values), marks));
        if |w| > |s| {
          PlainSurvives(w[|s|..], ps[1..], done, marks, values);
        }
    }
  }

  /** So a name that starts in a text is still there when the holes after it are filled. */
  lemma NameSurvives(m: string, u: string, ps: seq<Piece>, done: set<nat>, marks: Marks, values: seq<string>)
    requires |values| == |marks| && Clear(ps, |marks|)
    requires Name(m) && u != "" && m <= u + Flat(ps, marks)
    ensures m <= u + Flat(Fill(ps, done, values), marks)
  {
    StartsAcross(m, u, Flat(ps, marks));
    StartsAcross(m, u, Flat(Fill(ps, done, values), marks));
    if |m| > |u| {
      PlainSurvives(m[|u|..], ps, done, marks, values);
    }
  }

  /** A name that is not spelt once holes are filled was not spelt before. */
  lemma {:induction false} FreeBefore(m: string, ps: seq<Piece>, done: set<nat>, marks: Marks, values: seq<string>)
    requires |values| == |marks| && Clear(ps, |marks|) && Name(m)
    requires Free(Fill(ps, done, values), m, marks)
    ensures Free(ps, m, marks)
  {
    if ps != [] {
      var after := Fill(ps, done, values);
      assert after[1..] == Fill(ps[1..], done, values);
      FreeBefore(m, ps[1..], done, marks, values);
      if ps[0].Text? {
        var s, rest, rest' := ps[0].s, Flat(ps[1..], marks), Flat(after[1..], marks);
        forall i | 0 <= i < |s| ensures !(m <= (s + rest)[i..]) {
          assert (s + rest)[i..] == s[i..] + rest && (s + rest')[i..] == s[i..] + rest';
          if m <= s[i..] + rest {
            NameSurvives(m, s[i..], ps[1..], done, marks, values);
          }
        }
      }
    }
  }

  // What one replacement does when its name is spelt.

  /** Letters without '$' are passed over. */
  lemma ReplacePlain(w: string, rest: string, from: string, to: string)
    requires Name(from) && '$' !in w
    ensures Replace(w + rest, from, to) == w + Replace(rest, from, to)
  {
    forall i | 0 <= i < |w| ensures !(from <= (w + rest)[i..]) {
      assert (w + rest)[i..][0] == w[i];
    }
    ReplaceText(w, rest, from, to);
  }

  /** A name at the start: what is then replaced is as long as if it had been replaced after the '$'. */
  lemma ReplaceAtStart(s: string, from: string, to: string)
    requires Name(from) && from <= s
    ensures to <= Replace(s, from, to)
    ensures |Replace(s, from, to)| == |to| - |from| + 1 + |Replace(s[1..], from, to)|
  {
    var w, rest := from[1..], s[|from|..];
    assert s == from + rest && s[1..] == w + rest;
    ReplaceOwn(from, rest, to);
    ReplacePlain(w, rest, from, to);
  }

  /** r is as much too long, or too short, as replacements of m by v may make it. */
  ghost predicate OffBy(r: string, e: string, m: string, v: string) {
    (|v| >= |m| ==> |r| >= |e|) && (|v| <= |m| ==> |r| <= |e|)
  }

  /** One letter of text: filled is what should become of rest, where a name that starts here is still there. */
  lemma LetterGoesWrong(t: string, rest: string, filled: string, m: string, v: string)
    requires t != "" && Name(m) && v != m && (m <= t + rest ==> m <= t + filled)
    requires OffBy(Replace(t[1..] + rest, m, v), t[1..] + filled, m, v)
    ensures OffBy(Replace(t + rest, m, v), t + filled, m, v)
    ensures Replace(t + rest, m, v) == t + filled ==> !(m <= t + rest) && Replace(t[1..] + rest, m, v) == t[1..] + filled
  {
    HeadAndTail(t, rest);
    HeadAndTail(t, filled);
    if m <= t + rest {
      ReplaceAtStart(t + rest, m, v);
      if |v| == |m| {
        assert (t + filled)[..|m|] == m;
        assert Replace(t + rest, m, v)[..|m|] == v;
      }
    } else {
      ReplaceStep(t + rest, m, v);
    }
  }

  lemma SamePrefix(p: string, a: string, b: string)
    ensures p + a == p + b <==> a == b
  {
    assert (p + a)[|p|..] == a && (p + b)[|p|..] == b;
  }

  /** A hole: the replacement fills it if it is its own, and passes over it if not. */
  lemma HoleGoesRight(j: nat, k: nat, rest: string, marks: Marks, values: seq<string>)
    requires Distinct(marks) && j < |marks| && k < |marks| == |values|
    ensures Replace(marks[j] + rest, marks[k], values[k])
         == (if j == k then values[k] else marks[j]) + Replace(rest, marks[k], values[k])
  {
    if j == k {
      ReplaceOwn(marks[k], rest, values[k]);
    } else {
      ReplaceOther(marks[j], marks[k], rest, values[k]);
    }
  }

  /** Unless it inserts the name itself, a replacement that meets its name in a text goes wrong. */
  lemma {:induction false} SpeltGoesWrong(t: string, ps: seq<Piece>, k: nat, marks: Marks, values: seq<string>)
    requires Distinct(marks) && |values| == |marks| && Clear(ps, |marks|) && k < |marks| && values[k] != marks[k]
    ensures var r, e := Replace(t + Flat(ps, marks), marks[k], values[k]), t + Flat(Fill(ps, {k}, values), marks);
            && OffBy(r, e, marks[k], values[k])
            && (r == e ==> Free(ps, marks[k], marks) && Passes(marks[k], t, Flat(ps, marks)))
    decreases |ps|, |t| + 1
  {
    var m, v, rest, filled := marks[k], values[k], Flat(ps, marks), Flat(Fill(ps, {k}, values), marks);
    if t != "" {
      SpeltGoesWrong(t[1..], ps, k, marks, values);
      PassesLetter(m, t, rest);
      if m <= t + rest {
        NameSurvives(m, t, ps, {k}, marks, values);
      }
      LetterGoesWrong(t, rest, filled, m, v);
    } else {
      assert t + rest == rest && t + filled == filled;
      PieceGoesWrong(ps, k, marks, values);
    }
  }

  lemma {:induction false} PieceGoesWrong(ps: seq<Piece>, k: nat, marks: Marks, values: seq<string>)
    requires Distinct(marks) && |values| == |marks| && Clear(ps, |marks|) && k < |marks| && values[k] != marks[k]
    ensures var r, e := Replace(Flat(ps, marks), marks[k], values[k]), Flat(Fill(ps, {k}, values), marks);
            OffBy(r, e, marks[k], values[k]) && (r == e ==> Free(ps, marks[k], marks))
    decreases |ps|, 0
  {
    if ps != [] {
      var tail, p := ps[1..], Filled(ps[0], {k}, values);
      var rest, filled := Flat(tail, marks), Flat(Fill(tail, {k}, values), marks);
      assert Fill(ps, {k}, values)[1..] == Fill(tail, {k}, values);
      if ps[0].Text? {
        SpeltGoesWrong(ps[0].s, tail, k, marks, values);
      } else {
        PieceGoesWrong(tail, k, marks, values);
        HoleGoesRight(ps[0].k, k, rest, marks, values);
        SamePrefix(Shown(p, marks), Replace(rest, marks[k], values[k]), filled);
      }
    }
  }

  /** The placeholder k is not spelt in the texts of ps, or stands for itself. */
  ghost predicate Unspelt(k: nat, ps: seq<Piece>, marks: Marks, values: seq<string>)
    requires |values| == |marks| && Clear(ps, |marks|) && k < |marks|
  {
    values[k] == marks[k] || Free(ps, marks[k], marks)
  }

  /** One replacement fills the holes of its placeholder and does no more, exactly if that is not spelt. */
  lemma {:induction false} ReplacePiecesExactly(ps: seq<Piece>, k: nat, marks: Marks, values: seq<string>)
    requires Distinct(marks) && |values| == |marks| && Clear(ps, |marks|) && k < |marks|
    ensures Replace(Flat(ps, marks), marks[k], values[k]) == Flat(Fill(ps, {k}, values), marks) <==> Unspelt(k, ps, marks, values)
  {
    if values[k] == marks[k] {
      ReplaceSame(Flat(ps, marks), marks[k]);
      FillSame(ps, k, marks, values);
    } else {
      if Free(ps, marks[k], marks) {
        ReplacePieces(ps, k, marks, values);
      }
      PieceGoesWrong(ps, k, marks, values);
    }
  }

  // From strings to pieces and back.

  /** The first piece of s, and how long it is. */
  function FirstPiece(s: string, marks: Marks): (r: (Piece, nat))
    requires s != ""
    ensures 1 <= r.1 <= |s| && r.0.Fits(|marks|)
  {
    match Starting(s, marks, 0)
    case None => (Text([s[0]]), 1)
    case Some(k) => (Hole(k), |marks[k]|)
  }

  function Pieces(s: string, marks: Marks): (ps: seq<Piece>)
    ensures Clear(ps, |marks|)
    decreases |s|
  {
    if s == "" then [] else [FirstPiece(s, marks).0] + Pieces(s[FirstPiece(s, marks).1..], marks)
  }

  /** The pieces of a pattern, some holes filled, spell the pass that replaces those. */
  lemma {:induction false} PartlyPieces(s: string, done: set<nat>, marks: Marks, values: seq<string>)
    requires |values| == |marks|
    ensures Flat(Fill(Pieces(s, marks), done, values), marks) == Partly(s, done, marks, values)
    decreases |s|
  {
    if s != "" {
      var n := FirstPiece(s, marks).1;
      PartlyPieces(s[n..], done, marks, values);
      assert Pieces(s, marks)[1..] == Pieces(s[n..], marks);
      assert Fill(Pieces(s, marks), done, values)[1..] == Fill(Pieces(s[n..], marks), done, values);
    }
  }

  lemma {:induction false} PartlyNone(s: string, marks: Marks, values: seq<string>)
    requires |values| == |marks|
    ensures Partly(s, {}, marks, values) == s
    decreases |s|
  {
    if s != "" {
      match Starting(s, marks, 0)
      case None =>
        PartlyNone(s[1..], marks, values);
      case Some(k) =>
        PartlyNone(s[|marks[k]|..], marks, values);
        assert s == s[..|marks[k]|] + s[|marks[k]|..];
    }
  }

  lemma {:induction false} PartlyAll(s: string, done: set<nat>, marks: Marks, values: seq<string>)
    requires |values| == |marks| && forall k: nat | k < |marks| :: k in done
    ensures Partly(s, done, marks, values) == Substitute(s, marks, values)
    decreases |s|
  {
    if s != "" {
      match Starting(s, marks, 0)
      case None => PartlyAll(s[1..], done, marks, values);
      case Some(k) => PartlyAll(s[|marks[k]|..], done, marks, values);
    }
  }

  // The replacements one after another.

  function Elements(order: seq<nat>): set<nat> { set k | k in order }

  lemma UpToHasAll(n: nat)
    ensures forall k: nat | k < n :: k in UpTo(n)
  {
    forall k: nat | k < n ensures k in UpTo(n) {
      assert UpTo(n)[k] == k;
    }
  }

  /** The pattern once the placeholders in done are filled. */
  function Stage(pattern: string, done: set<nat>, marks: Marks, values: seq<string>): (ps: seq<Piece>)
    requires |values| == |marks|
    ensures Clear(ps, |marks|)
  {
    Fill(Pieces(pattern, marks), done, values)
  }

  /** After each replacement, exactly the placeholders replaced so far have become their values. */
  ghost predicate InStep(pattern: string, order: seq<nat>, marks: Marks, values: seq<string>)
    requires |values| == |marks| && InRange(order, |marks|)
  {
    forall i | 0 <= i <= |order| ::
      ReplaceAll(pattern, order[..i], marks, values) == Partly(pattern, Elements(order[..i]), marks, values)
  }

  /** No placeholder is spelt by the pattern and the values filled in when its turn comes, unless it stands for itself. */
  ghost predicate Harmless(pattern: string, order: seq<nat>, marks: Marks, values: seq<string>)
    requires |values| == |marks| && InRange(order, |marks|)
  {
    forall i | 0 <= i < |order| :: Unspelt(order[i], Stage(pattern, Elements(order[..i]), marks, values), marks, values)
  }

  lemma FillTwice(ps: seq<Piece>, done: set<nat>, more: set<nat>, values: seq<string>)
    requires Clear(ps, |values|)
    ensures Fill(Fill(ps, done, values), more, values) == Fill(ps, done + more, values)
  {
  }

  lemma OneStepExactly(pattern: string, done: set<nat>, k: nat, marks: Marks, values: seq<string>)
    requires Distinct(marks) && |values| == |marks| && k < |marks|
    ensures Replace(Partly(pattern, done, marks, values), marks[k], values[k]) == Partly(pattern, done + {k}, marks, values)
       <==> Unspelt(k, Stage(pattern, done, marks, values), marks, values)
  {
    PartlyPieces(pattern, done, marks, values);
    PartlyPieces(pattern, done + {k}, marks, values);
    FillTwice(Pieces(pattern, marks), done, {k}, values);
    ReplacePiecesExactly(Stage(pattern, done, marks, values), k, marks, values);
  }

  lemma {:induction false} ReplaceAllApart(s: string, a: seq<nat>, b: seq<nat>, marks: Marks, values: seq<string>)
    requires |values| == |marks| && InRange(a, |marks|) && InRange(b, |marks|)
    ensures ReplaceAll(s, a + b, marks, values) == ReplaceAll(ReplaceAll(s, a, marks, values), b, marks, values)
    decreases |a|
  {
    if a == [] {
      assert a + b == b;
    } else {
      assert (a + b)[1..] == a[1..] + b;
      ReplaceAllApart(Replace(s, marks[a[0]], values[a[0]]), a[1..], b, marks, values);
    }
  }

  lemma ElementsSnoc(order: seq<nat>, k: nat)
    ensures Elements(order + [k]) == Elements(order) + {k}
  {
  }

  lemma PrefixOfSnoc(order: seq<nat>, k: nat, i: nat)
    requires i <= |order|
    ensures (order + [k])[..i] == order[..i]
  {
  }

  /** A longer order is in step exactly if it is so far and its last replacement is right. */
  lemma InStepSnoc(pattern: string, order: seq<nat>, k: nat, marks: Marks, values: seq<string>)
    requires |values| == |marks| && InRange(order, |marks|) && k < |marks|
    ensures InStep(pattern, order + [k], marks, values) <==>
            InStep(pattern, order, marks, values)
            && ReplaceAll(pattern, order + [k], marks, values) == Partly(pattern, Elements(order) + {k}, marks, values)
  {
    var longer := order + [k];
    assert longer[..|longer|] == longer;
    ElementsSnoc(order, k);
    forall i | 0 <= i <= |order| ensures longer[..i] == order[..i] {
      PrefixOfSnoc(order, k, i);
    }
    if InStep(pattern, longer, marks, values) {
      forall i | 0 <= i <= |order|
        ensures ReplaceAll(pattern, order[..i], marks, values) == Partly(pattern, Elements(order[..i]), marks, values)
      {
        assert longer[..i] == order[..i];
      }
    }
  }

  lemma HarmlessSnoc(pattern: string, order: seq<nat>, k: nat, marks: Marks, values: seq<string>)
    requires |values| == |marks| && InRange(order, |marks|) && k < |marks|
    ensures Harmless(pattern, order + [k], marks, values) <==>
            Harmless(pattern, order, marks, values) && Unspelt(k, Stage(pattern, Elements(order), marks, values), marks, values)
  {
    var longer := order + [k];
    assert order[..|order|] == order;
    forall i | 0 <= i <= |order| ensures longer[..i] == order[..i] {
      PrefixOfSnoc(order, k, i);
    }
    if Harmless(pattern, longer, marks, values) {
      assert longer[|order|] == k;
      forall i | 0 <= i < |order|
        ensures Unspelt(order[i], Stage(pattern, Elements(order[..i]), marks, values), marks, values)
      {
        assert longer[i] == order[i] && longer[..i] == order[..i];
      }
    }
  }

  /**
   * Each replacement turns its own placeholders of the pattern into its value and does nothing else,
   * exactly if no placeholder is spelt when its turn comes.
   */
  lemma {:induction false} StepsExactly(pattern: string, order: seq<nat>, marks: Marks, values: seq<string>)
    requires Distinct(marks) && |values| == |marks| && InRange(order, |marks|)
    ensures InStep(pattern, order, marks, values) <==> Harmless(pattern, order, marks, values)
    decreases |order|
  {
    if order == [] {
      PartlyNone(pattern, marks, values);
      assert Elements([]) == {};
    } else {
      var before, k := order[..|order| - 1], order[|order| - 1];
      assert before + [k] == order;
      StepsExactly(pattern, before, marks, values);
      InStepSnoc(pattern, before, k, marks, values);
      HarmlessSnoc(pattern, before, k, marks, values);
      assert before[..|before|] == before;
      OneStepExactly(pattern, Elements(before), k, marks, values);
      ReplaceAllApart(pattern, before, [k], marks, values);
    }
  }

  /** Then they come to the simultaneous substitution, if each placeholder has its turn. */
  lemma HarmlessIsSimultaneous(pattern: string, order: seq<nat>, marks: Marks, values: seq<string>)
    requires Distinct(marks) && |values| == |marks| && InRange(order, |marks|) && forall k: nat | k < |marks| :: k in order
    requires Harmless(pattern, order, marks, values)
    ensures ReplaceAll(pattern, order, marks, values) == Substitute(pattern, marks, values)
  {
    StepsExactly(pattern, order, marks, values);
    assert order[..|order|] == order;
    PartlyAll(pattern, Elements(order), marks, values);
  }

  // All orders.

  /** The order names every placeholder once. */
  ghost predicate NamesOnce(order: seq<nat>, n: nat) {
    && InRange(order, n)
    && (forall i, j | 0 <= i < j < |order| :: order[i] != order[j])
    && forall k: nat | k < n :: k in order
  }

  ghost predicate EveryOrder(pattern: string, marks: Marks, values: seq<string>)
    requires |values| == |marks|
  {
    forall order | NamesOnce(order, |marks|) :: InStep(pattern, order, marks, values)
  }

  /** All placeholders but k. */
  function Others(k: nat, n: nat): set<nat> { Elements(UpTo(n)) - {k} }

  /** No placeholder is spelt when all others are filled, unless it stands for itself. */
  ghost predicate NeverSpelt(pattern: string, marks: Marks, values: seq<string>)
    requires |values| == |marks|
  {
    forall k: nat | k < |marks| :: Unspelt(k, Stage(pattern, Others(k, |marks|), marks, values), marks, values)
  }

  /** What is not spelt when more is filled is not spelt when less is. */
  lemma UnspeltBefore(pattern: string, done: set<nat>, more: set<nat>, k: nat, marks: Marks, values: seq<string>)
    requires |values| == |marks| && k < |marks| && done <= more
    requires Unspelt(k, Stage(pattern, more, marks, values), marks, values)
    ensures Unspelt(k, Stage(pattern, done, marks, values), marks, values)
  {
    FillTwice(Pieces(pattern, marks), done, more, values);
    assert done + more == more;
    if values[k] != marks[k] {
      FreeBefore(marks[k], Stage(pattern, done, marks, values), more, marks, values);
    }
  }

  /** An order in which the turn of k comes last. */
  lemma LastOrder(k: nat, n: nat) returns (before: seq<nat>)
    requires k < n
    ensures NamesOnce(before + [k], n) && InRange(before, n) && Elements(before) == Others(k, n)
  {
    before := UpTo(n)[..k] + UpTo(n)[k + 1..];
    UpToHasAll(n);
    forall j | j in Others(k, n) ensures j in before {
      assert before[if j < k then j else j - 1] == j;
    }
    forall j: nat | j < n ensures j in before + [k] {
      assert j == k || j in Others(k, n);
    }
  }

  /** The replacements are in step in every order exactly if no placeholder is spelt when all others are filled. */
  lemma EveryOrderExactly(pattern: string, marks: Marks, values: seq<string>)
    requires Distinct(marks) && |values| == |marks|
    ensures EveryOrder(pattern, marks, values) <==> NeverSpelt(pattern, marks, values)
  {
    UpToHasAll(|marks|);
    if NeverSpelt(pattern, marks, values) {
      forall order | NamesOnce(order, |marks|) ensures InStep(pattern, order, marks, values) {
        forall i | 0 <= i < |order|
          ensures Unspelt(order[i], Stage(pattern, Elements(order[..i]), marks, values), marks, values)
        {
          UnspeltBefore(pattern, Elements(order[..i]), Others(order[i], |marks|), order[i], marks, values);
        }
        StepsExactly(pattern, order, marks, values);
      }
    }
    if EveryOrder(pattern, marks, values) {
      forall k: nat | k < |marks|
        ensures Unspelt(k, Stage(pattern, Others(k, |marks|), marks, values), marks, values)
      {
        var before := LastOrder(k, |marks|);
        StepsExactly(pattern, before + [k], marks, values);
        HarmlessSnoc(pattern, before, k, marks, values);
      }
    }
  }

  // What a caller can see of the substitution.

  ghost predicate Occurs(m: string, s: string) {
    exists i :: 0 <= i <= |s| && m <= s[i..]
  }

  /** No placeholder occurs in t but those that stand for themselves. */
  ghost predicate Inert(t: string, marks: Marks, values: seq<string>)
    requires |values| == |marks|
  {
    forall j | 0 <= j < |marks| && Occurs(marks[j], t) :: values[j] == marks[j]
  }

  lemma OccursReads(m: string, s: string)
    requires m != "" && Occurs(m, s)
    ensures m[0] in s
  {
    var i :| 0 <= i <= |s| && m <= s[i..];
    assert s[i] == m[0];
  }

  lemma OccursLater(m: string, a: string, b: string)
    requires Occurs(m, b)
    ensures Occurs(m, a + b)
  {
    var i :| 0 <= i <= |b| && m <= b[i..];
    assert (a + b)[|a| + i..] == b[i..];
  }

  lemma {:induction false} AbsentIsFree(ps: seq<Piece>, m: string, marks: Marks)
    requires Clear(ps, |marks|) && !Occurs(m, Flat(ps, marks))
    ensures Free(ps, m, marks)
  {
    if ps != [] {
      if Occurs(m, Flat(ps[1..], marks)) {
        OccursLater(m, Shown(ps[0], marks), Flat(ps[1..], marks));
      }
      AbsentIsFree(ps[1..], m, marks);
    }
  }

  /** An inert substitution spells nothing at any stage of any order. */
  lemma InertIsHarmless(pattern: string, order: seq<nat>, marks: Marks, values: seq<string>)
    requires |values| == |marks| && InRange(order, |marks|)
    requires Inert(Substitute(pattern, marks, values), marks, values)
    ensures Harmless(pattern, order, marks, values)
  {
    var all := Elements(UpTo(|marks|));
    UpToHasAll(|marks|);
    PartlyPieces(pattern, all, marks, values);
    PartlyAll(pattern, all, marks, values);
    forall i | 0 <= i < |order|
      ensures Unspelt(order[i], Stage(pattern, Elements(order[..i]), marks, values), marks, values)
    {
      var k := order[i];
      if values[k] != marks[k] {
        AbsentIsFree(Stage(pattern, all, marks, values), marks[k], marks);
      }
      UnspeltBefore(pattern, Elements(order[..i]), all, k, marks, values);
    }
  }

  /** So the replacements in any order, in which some may even be repeated, come to it. */
  lemma AnyOrderIsSimultaneous(pattern: string, order: seq<nat>, marks: Marks, values: seq<string>)
    requires Distinct(marks) && |values| == |marks| && InRange(order, |marks|) && forall k: nat | k < |marks| :: k in order
    requires Inert(Substitute(pattern, marks, values), marks, values)
    ensures ReplaceAll(pattern, order, marks, values) == Substitute(pattern, marks, values)
  {
    InertIsHarmless(pattern, order, marks, values);
    HarmlessIsSimultaneous(pattern, order, marks, values);
  }

  /** The placeholders that the pattern has. */
  function Inserted(s: string, marks: Marks): set<nat> {
    if s == "" then {}
    else match Starting(s, marks, 0)
      case None => Inserted(s[1..], marks)
      case Some(k) => {k} + Inserted(s[|marks[k]|..], marks)
  }

  lemma {:induction false} NoDollarThere(s: string, marks: Marks, values: seq<string>)
    requires |values| == |marks| && WellFormed(s, marks) && forall k | k in Inserted(s, marks) :: k < |marks| && '$' !in values[k]
    ensures '$' !in Substitute(s, marks, values)
    decreases |s|
  {
    if s != "" {
      match Starting(s, marks, 0)
      case None =>
        assert Inserted(s, marks) == Inserted(s[1..], marks);
        NoDollarThere(s[1..], marks, values);
      case Some(k) =>
        assert Inserted(s, marks) == {k} + Inserted(s[|marks[k]|..], marks);
        NoDollarThere(s[|marks[k]|..], marks, values);
    }
  }

  /** It is inert if every '$' of the pattern starts a placeholder and no value that it inserts has one. */
  lemma DollarFreeIsInert(pattern: string, marks: Marks, values: seq<string>)
    requires |values| == |marks| && WellFormed(pattern, marks)
    requires forall k | k in Inserted(pattern, marks) :: k < |marks| && '$' !in values[k]
    ensures Inert(Substitute(pattern, marks, values), marks, values)
  {
    NoDollarThere(pattern, marks, values);
    var t := Substitute(pattern, marks, values);
    forall j | 0 <= j < |marks| ensures Occurs(marks[j], t) ==> marks[j][0] in t {
      if Occurs(marks[j], t) {
        OccursReads(marks[j], t);
      }
    }
  }

  // The key.

  lemma {:induction false} DashedIsReplace(s: string)
    ensures Replace(s, " ", "-") == Dashed(s)
    ensures ' ' !in Dashed(s)
  {
    if s != "" {
      DashedIsReplace(s[1..]);
    }
  }

  lemma KeyLaw(pattern: string, marks: Marks, values: seq<string>)
    requires Distinct(marks) && |values| == |marks| && Harmless(pattern, UpTo(|marks|), marks, values)
    ensures Key(pattern, marks, values) == Dashed(Substitute(pattern, marks, values))
  {
    var order := UpTo(|marks|);
    UpToHasAll(|marks|);
    HarmlessIsSimultaneous(pattern, order, marks, values);
    DashedIsReplace(Substitute(pattern, marks, values));
  }

  /** The key is the simultaneous substitution with its spaces turned to dashes. */
  lemma KeyIsSimultaneous(pattern: string, values: seq<string>)
    requires |values| == |PLACEHOLDERS| && Harmless(pattern, UpTo(|PLACEHOLDERS|), PLACEHOLDERS, values)
    ensures GetS3Key(pattern, values) == Dashed(Substitute(pattern, PLACEHOLDERS, values))
  {
    PlaceholdersDistinct();
    KeyLaw(pattern, PLACEHOLDERS, values);
  }

  /** For every pattern and all values. */
  lemma KeyHasNoSpace(pattern: string, values: seq<string>)
    requires |values| == |PLACEHOLDERS|
    ensures ' ' !in GetS3Key(pattern, values)
  {
    DashedIsReplace(ReplaceAll(pattern, UpTo(|PLACEHOLDERS|), PLACEHOLDERS, values));
  }

  // Which placeholder stands for which value.

  lemma KeyOfName(k: nat, u: Upload)
    requires k < |PLACEHOLDERS|
    ensures '$' !in u.Values()[k] ==> UploadKey(PLACEHOLDERS[k], "", u) == Dashed(u.Values()[k])
  {
    var n, values := |PLACEHOLDERS|, u.Values();
    if '$' !in values[k] {
      PlaceholdersDistinct();
      BetweenSplit(0, k, n);
      assert UpTo(n) == Between(0, n);
      TurnComes(k, Between(0, k), Between(k + 1, n), PLACEHOLDERS, values);
      PlainStays(values[k], Between(k + 1, n), PLACEHOLDERS, values);
      DashedIsReplace(values[k]);
    }
  }

  /** The key for a pattern comes to this value, if the value has no '$'. */
  ghost predicate StandsFor(pattern: string, u: Upload, value: string) {
    '$' !in value ==> UploadKey(pattern, "", u) == Dashed(value)
  }

  /** A pattern that is one placeholder gives what that stands for. */
  lemma NamesStandFor(u: Upload)
    ensures StandsFor("$fileName", u, u.fileName) && StandsFor("$fileExtension", u, u.extension)
    ensures StandsFor("$browserName", u, u.browser) && StandsFor("$browserVersion", u, u.version)
    ensures StandsFor("$platformName", u, u.platform) && StandsFor("$quota", u, u.quota)
    ensures StandsFor("$sessionId", u, u.sessionId) && StandsFor("$fileType", u, u.fileType)
    ensures StandsFor("$date", u, u.date)
  {
    KeyOfName(0, u);
    KeyOfName(1, u);
    KeyOfName(2, u);
    KeyOfName(3, u);
    KeyOfName(4, u);
    KeyOfName(5, u);
    KeyOfName(6, u);
    KeyOfName(7, u);
    KeyOfName(8, u);
  }

  /** A session's own pattern counts instead of the hub's. */
  lemma OwnPattern(pattern: string, own: string, u: Upload)
    requires own != ""
    ensures UploadKey(pattern, own, u) == UploadKey(own, "", u)
  {
  }

  // A value that spells a later placeholder.

  function Between(a: nat, b: nat): (order: seq<nat>)
    requires a <= b
    ensures |order| == b - a && forall i | 0 <= i < b - a :: order[i] == a + i
  {
    seq(b - a, i requires 0 <= i < b - a => a + i)
  }

  /** A text that is a placeholder becomes its value in its turn. */
  lemma Turn(k: nat, after: seq<nat>, marks: Marks, values: seq<string>)
    requires k < |marks| == |values| && InRange(after, |marks|)
    ensures ReplaceAll(marks[k], [k] + after, marks, values) == ReplaceAll(values[k], after, marks, values)
  {
    ReplaceOwn(marks[k], "", values[k]);
    assert marks[k] + "" == marks[k] && values[k] + "" == values[k];
    assert ([k] + after)[1..] == after;
  }

  /** It is left alone in other turns. */
  lemma {:induction false} OtherTurns(k: nat, order: seq<nat>, marks: Marks, values: seq<string>)
    requires Distinct(marks) && k < |marks| == |values| && InRange(order, |marks|) && k !in order
    ensures ReplaceAll(marks[k], order, marks, values) == marks[k]
    decreases |order|
  {
    if order != [] {
      ReplaceOther(marks[k], marks[order[0]], "", values[order[0]]);
      assert marks[k] + "" == marks[k];
      OtherTurns(k, order[1..], marks, values);
    }
  }

  lemma TurnComes(k: nat, before: seq<nat>, after: seq<nat>, marks: Marks, values: seq<string>)
    requires Distinct(marks) && k < |marks| == |values| && InRange(before, |marks|) && InRange(after, |marks|) && k !in before
    ensures ReplaceAll(marks[k], before + ([k] + after), marks, values) == ReplaceAll(values[k], after, marks, values)
  {
    OtherTurns(k, before, marks, values);
    ReplaceAllApart(marks[k], before, [k] + after, marks, values);
    Turn(k, after, marks, values);
  }

  lemma BetweenSplit(a: nat, k: nat, b: nat)
    requires a <= k < b
    ensures Between(a, b) == Between(a, k) + ([k] + Between(k + 1, b))
  {
  }

  lemma UpToSplit(n: nat)
    requires n > 0
    ensures UpTo(n) == [0] + Between(1, n)
  {
  }

  lemma {:induction false} PlainStays(t: string, order: seq<nat>, marks: Marks, values: seq<string>)
    requires |values| == |marks| && InRange(order, |marks|) && '$' !in t
    ensures ReplaceAll(t, order, marks, values) == t
    decreases |order|
  {
    if order != [] {
      ReplacePlain(t, "", marks[order[0]], values[order[0]]);
      assert t + "" == t;
      PlainStays(t, order[1..], marks, values);
    }
  }

  lemma PartlyAlone(k: nat, done: set<nat>, marks: Marks, values: seq<string>)
    requires Distinct(marks) && k < |marks| == |values| && k in done
    ensures Partly(marks[k], done, marks, values) == values[k]
  {
    assert marks[k] <= marks[k];
    assert marks[k][|marks[k]|..] == "";
    assert values[k] + "" == values[k];
  }

  lemma SubstituteAlone(k: nat, marks: Marks, values: seq<string>)
    requires Distinct(marks) && k < |marks| == |values|
    ensures Substitute(marks[k], marks, values) == values[k]
  {
    assert marks[k] <= marks[k];
    assert marks[k][|marks[k]|..] == "";
    assert values[k] + "" == values[k];
  }

  /** A text that is a placeholder, in the hub's own order. */
  lemma ThenComes(k: nat, a: nat, b: nat, marks: Marks, values: seq<string>)
    requires Distinct(marks) && a <= k < b <= |marks| == |values|
    ensures ReplaceAll(marks[k], Between(a, b), marks, values) == ReplaceAll(values[k], Between(k + 1, b), marks, values)
  {
    BetweenSplit(a, k, b);
    TurnComes(k, Between(a, k), Between(k + 1, b), marks, values);
  }

  /**
   * A value that is itself a later placeholder is replaced again, by that one's value, and so is
   * not what the pattern asked for: a file called "$date" is an example.
   */
  lemma ValueReplacedAgain(k: nat, j: nat, marks: Marks, values: seq<string>)
    requires Distinct(marks) && k < j < |marks| == |values| && values[k] == marks[j] && '$' !in values[j]
    ensures Substitute(marks[k], marks, values) == marks[j] != values[j]
    ensures Key(marks[k], marks, values) == Dashed(values[j])
  {
    var n := |marks|;
    SubstituteAlone(k, marks, values);
    assert UpTo(n) == Between(0, n);
    ThenComes(k, 0, n, marks, values);
    ThenComes(j, k + 1, n, marks, values);
    PlainStays(values[j], Between(j + 1, n), marks, values);
    DashedIsReplace(values[j]);
    assert marks[j][0] == '$';
  }

  /** One that is an earlier placeholder stays. */
  lemma EarlierStays(k: nat, j: nat, marks: Marks, values: seq<string>)
    requires Distinct(marks) && j < k < |marks| == |values| && values[k] == marks[j]
    ensures Key(marks[k], marks, values) == Dashed(Substitute(marks[k], marks, values)) == Dashed(marks[j])
  {
    var n := |marks|;
    SubstituteAlone(k, marks, values);
    assert UpTo(n) == Between(0, n);
    ThenComes(k, 0, n, marks, values);
    OtherTurns(j, Between(k + 1, n), marks, values);
    DashedIsReplace(marks[j]);
  }

  /**
   * The result may be right though the steps are wrong: here the first value is replaced by another
   * and later back again, so only the steps tell whether a value was replaced.
   */
  lemma {:induction false} WrongAndBack(i: nat, j: nat, marks: Marks, values: seq<string>)
    requires Distinct(marks) && 0 < i < j < |marks| == |values|
    requires values[0] == marks[i] && values[i] == marks[j] && values[j] == marks[i]
    ensures ReplaceAll(marks[0], UpTo(|marks|), marks, values) == Substitute(marks[0], marks, values)
    ensures !InStep(marks[0], UpTo(|marks|), marks, values)
  {
    var n := |marks|;
    SubstituteAlone(0, marks, values);
    UpToSplit(n);
    Turn(0, Between(1, n), marks, values);
    ThenComes(i, 1, n, marks, values);
    ThenComes(j, i + 1, n, marks, values);
    OtherTurns(i, Between(j + 1, n), marks, values);
    // After the turn of i the text is marks[j].
    var order := UpTo(n)[..i + 1];
    assert order == UpTo(i + 1);
    UpToSplit(i + 1);
    Turn(0, Between(1, i + 1), marks, values);
    ThenComes(i, 1, i + 1, marks, values);
    PartlyAlone(0, Elements(order), marks, values);
    assert order[0] == 0;
    assert Differ(marks[i], marks[j]);
  }
}
