/** The statement splitter of apply-schema.js: the schema file is cut at every
    `;`, each piece trimmed, and the pieces that are empty or start with a
    `--` comment dropped; what remains is executed one statement at a time.
    Reading the file and executing the statements are not modelled. */
module ApplySchema {
  import opened Seqs
  import opened Text

  /** `stmt.length > 0 && !stmt.startsWith('--')`. */
  predicate Kept(stmt: string)
  {
    |stmt| > 0 && !StartsWith(stmt, "--")
  }

  /** A statement as the splitter hands it out: no separator inside and no
      whitespace at either end. */
  predicate Clean(stmt: string)
  {
    ';' !in stmt && (|stmt| > 0 ==> !IsWhitespace(stmt[0]) && !IsWhitespace(stmt[|stmt| - 1]))
  }

  /** A clean statement is its own trim. */
  lemma CleanIsTrimmed(stmt: string)
    requires Clean(stmt)
    ensures Trim(stmt) == stmt
  {
    TrimOfTrimmed(stmt);
  }

  /** `.map(stmt => stmt.trim())`. */
  function TrimAll(chunks: seq<string>): (r: seq<string>)
    ensures |r| == |chunks|
    ensures forall i :: 0 <= i < |chunks| ==> r[i] == Trim(chunks[i])
  {
    seq(|chunks|, i requires 0 <= i < |chunks| => Trim(chunks[i]))
  }

  /** The trimmed pieces of a `;`-split are clean. */
  lemma TrimmedPiecesAreClean(schema: string)
    ensures forall i :: 0 <= i < |TrimAll(Split(schema, ';'))| ==> Clean(TrimAll(Split(schema, ';'))[i])
  {
    var chunks := Split(schema, ';');
    forall i | 0 <= i < |chunks|
      ensures Clean(TrimAll(chunks)[i])
    {
      TrimKeepsAbsent(chunks[i], ';');
    }
  }

  /** Filtering keeps only elements of the input, so it keeps cleanliness. */
  lemma FilterKeepsClean(s: seq<string>, p: string -> bool)
    requires forall i :: 0 <= i < |s| ==> Clean(s[i])
    ensures forall i :: 0 <= i < |Filter(s, p)| ==> Clean(Filter(s, p)[i])
  {
    var r := Filter(s, p);
    forall i | 0 <= i < |r|
      ensures Clean(r[i])
    {
      FilterMembership(s, p, r[i]);
    }
  }

  /** `schema.split(';').map(trim).filter(kept)`: every statement is
      non-empty, does not start with `--`, has no `;` and is already
      trimmed. */
  function Statements(schema: string): (r: seq<string>)
    ensures forall i :: 0 <= i < |r| ==> Kept(r[i]) && Clean(r[i])
  {
    TrimmedPiecesAreClean(schema);
    FilterKeepsClean(TrimAll(Split(schema, ';')), Kept);
    Filter(TrimAll(Split(schema, ';')), Kept)
  }

  /** The pipeline as a loop over the pieces: the statements are exactly the
      kept trimmed pieces, in order. */
  method SplitStatements(schema: string) returns (stmts: seq<string>)
    ensures stmts == Statements(schema)
  {
    var chunks := Split(schema, ';');
    ghost var trimmed := TrimAll(chunks);
    stmts := [];
    var i := 0;
    while i < |chunks|
      invariant 0 <= i <= |chunks|
      invariant stmts == Filter(trimmed[..i], Kept)
    {
      var t := Trim(chunks[i]);
      FilterSnoc(trimmed, i, Kept);
      if Kept(t) {
        stmts := stmts + [t];
      }
      i := i + 1;
    }
    assert trimmed[..|chunks|] == trimmed;
  }

  /** A statement list that is already clean and kept, joined with `;`,
      splits back into itself. */
  lemma StatementsOfJoined(stmts: seq<string>)
    requires |stmts| >= 1
    requires forall i :: 0 <= i < |stmts| ==> Kept(stmts[i]) && Clean(stmts[i])
    ensures Statements(Join(stmts, ';')) == stmts
  {
    SplitJoin(stmts, ';');
    forall i | 0 <= i < |stmts|
      ensures TrimAll(stmts)[i] == stmts[i]
    {
      CleanIsTrimmed(stmts[i]);
    }
    assert TrimAll(stmts) == stmts;
    FilterKeepsAll(stmts, Kept);
  }

  /** `if (statement.trim())`: the statements the loop executes. */
  function Executed(stmts: seq<string>): (r: seq<string>)
    ensures forall i :: 0 <= i < |r| ==> Trim(r[i]) != ""
  {
    Filter(stmts, (s: string) => Trim(s) != "")
  }

  /** The second blank check never skips a statement of the splitter. */
  lemma ExecutesEveryStatement(schema: string)
    ensures Executed(Statements(schema)) == Statements(schema)
  {
    var stmts := Statements(schema);
    forall i | 0 <= i < |stmts|
      ensures Trim(stmts[i]) != ""
    {
      CleanIsTrimmed(stmts[i]);
    }
    FilterKeepsAll(stmts, (s: string) => Trim(s) != "");
  }

  /** As written: a piece whose first line is a `--` comment is dropped
      whole, together with the SQL that follows the comment. */
  lemma CommentLedPieceDropped(h: string, q: string)
    requires ';' !in h && ';' !in q
    ensures Statements("--" + h + "\n" + q) == []
  {
    var s := "--" + h + "\n" + q;
    assert ';' !in s;
    SplitWithout(s, ';');
    assert StartsWith(s, "--");
    TrimKeepsSolidPrefix(s, "--");
    assert TrimAll([s]) == [Trim(s)];
    assert Filter([Trim(s)], Kept) == [] + Filter([], Kept);
  }

  // ---------------------------------------------------------------------
  // The splitter as evidently intended: comment lines are skipped, not the
  // statement they precede.

  predicate IsNewline(c: char)
  {
    c == '\n'
  }

  lemma TrimStartIdempotent(s: string)
    ensures TrimStart(TrimStart(s)) == TrimStart(s)
  {
  }

  /** Drops the leading `--` comment lines of a piece (and the whitespace
      before them); what is left is a suffix of the piece. */
  function DropCommentLines(s: string): (r: string)
    ensures |r| <= |s| && r == s[|s| - |r|..]
    decreases |s|
  {
    var t := TrimStart(s);
    if StartsWith(t, "--") then
      match FirstIndex(t, IsNewline)
      case None => ""
      case Some(k) =>
        var rest := t[k + 1..];
        var r := DropCommentLines(rest);
        assert r == t[|t| - |r|..];
        r
    else t
  }

  /** A suffix does not contain what its whole does not. */
  lemma SuffixKeepsAbsent(s: string, r: string, c: char)
    requires |r| <= |s| && r == s[|s| - |r|..] && c !in s
    ensures c !in r
  {
    forall k | 0 <= k < |r|
      ensures r[k] != c
    {
      assert r[k] == s[|s| - |r| + k];
    }
  }

  /** One piece of the corrected splitter: comment lines dropped, then
      trimmed. */
  function CleanPiece(chunk: string): string
  {
    Trim(DropCommentLines(chunk))
  }

  lemma CleanPieceShape(chunk: string)
    ensures ';' !in chunk ==> Clean(CleanPiece(chunk))
  {
    var d := DropCommentLines(chunk);
    if ';' !in chunk {
      SuffixKeepsAbsent(chunk, d, ';');
      TrimKeepsAbsent(d, ';');
    }
  }

  function CleanPieces(chunks: seq<string>): (r: seq<string>)
    ensures |r| == |chunks|
    ensures forall i :: 0 <= i < |chunks| ==> r[i] == CleanPiece(chunks[i])
  {
    seq(|chunks|, i requires 0 <= i < |chunks| => CleanPiece(chunks[i]))
  }

  /** The corrected splitter: split at `;`, drop comment lines, trim, keep
      the non-empty pieces that do not start with `--`. */
  function CorrectedStatements(schema: string): (r: seq<string>)
    ensures forall i :: 0 <= i < |r| ==> Kept(r[i])
  {
    Filter(CleanPieces(Split(schema, ';')), Kept)
  }

  /** The corrected statements have the same shape as the original ones. */
  lemma CorrectedStatementsAreClean(schema: string)
    ensures forall i :: 0 <= i < |CorrectedStatements(schema)| ==> Clean(CorrectedStatements(schema)[i])
  {
    var chunks := Split(schema, ';');
    var pieces := CleanPieces(chunks);
    forall i | 0 <= i < |pieces|
      ensures Clean(pieces[i])
    {
      CleanPieceShape(chunks[i]);
    }
    FilterKeepsClean(pieces, Kept);
  }

  /** A piece led by a comment line is treated as the text after that
      line. */
  lemma DropLeadingComment(h: string, q: string)
    requires '\n' !in h
    ensures DropCommentLines("--" + h + "\n" + q) == DropCommentLines(q)
  {
    var s := "--" + h + "\n" + q;
    CommentLineEnds(h, q);
    DropAtFirstNewline(s, 2 + |h|);
  }

  /** A piece that starts with `--` right away loses everything up to its
      first line break. */
  lemma DropAtFirstNewline(s: string, k: nat)
    requires StartsWith(s, "--") && FirstIndex(s, IsNewline) == Some(k)
    ensures DropCommentLines(s) == DropCommentLines(s[k + 1..])
  {
    assert s[0] == '-';
    assert TrimStart(s) == s;
  }

  /** The first line break of a comment-led piece ends the comment line. */
  lemma CommentLineEnds(h: string, q: string)
    requires '\n' !in h
    ensures StartsWith("--" + h + "\n" + q, "--")
    ensures FirstIndex("--" + h + "\n" + q, IsNewline) == Some(2 + |h|)
    ensures ("--" + h + "\n" + q)[2 + |h| + 1..] == q
  {
    var s := "--" + h + "\n" + q;
    assert s[..2] == "--";
    forall j | 0 <= j < 2 + |h|
      ensures !IsNewline(s[j])
    {
      if j >= 2 {
        assert s[j] == h[j - 2];
      }
    }
    assert IsNewline(s[2 + |h|]);
  }

  /** A piece that does not start with a comment is simply trimmed. */
  lemma CleanPieceWithoutComment(c: string)
    requires !StartsWith(TrimStart(c), "--")
    ensures CleanPiece(c) == Trim(c)
  {
    TrimStartIdempotent(c);
    assert DropCommentLines(c) == TrimStart(c);
  }

  /** A text without separators is one piece. */
  lemma CorrectedOfOnePiece(s: string)
    requires ';' !in s
    ensures CorrectedStatements(s) == Filter([CleanPiece(s)], Kept)
  {
    SplitWithout(s, ';');
    var pieces := CleanPieces(Split(s, ';'));
    assert |pieces| == 1;
    assert pieces[0] == CleanPiece(s);
    assert pieces == [CleanPiece(s)];
  }

  lemma CommentLedHasNoSeparator(h: string, q: string)
    requires ';' !in h && ';' !in q
    ensures ';' !in "--" + h + "\n" + q
  {
  }

  lemma CleanPieceAfterComment(h: string, q: string)
    requires '\n' !in h && !StartsWith(TrimStart(q), "--")
    ensures CleanPiece("--" + h + "\n" + q) == Trim(q)
  {
    DropLeadingComment(h, q);
    CleanPieceWithoutComment(q);
  }

  /** A separator-free text whose cleaned piece is kept is that one
      statement. */
  lemma CorrectedOfKeptPiece(s: string, t: string)
    requires ';' !in s && Kept(t) && CleanPiece(s) == t
    ensures CorrectedStatements(s) == [t]
  {
    CorrectedOfOnePiece(s);
    FilterKeepsAll([t], Kept);
  }

  /** With the correction, the statement after a comment line is kept. */
  lemma CorrectedKeepsStatementAfterComment(h: string, q: string)
    requires '\n' !in h && ';' !in h && ';' !in q
    requires Kept(Trim(q)) && !StartsWith(TrimStart(q), "--")
    ensures CorrectedStatements("--" + h + "\n" + q) == [Trim(q)]
  {
    CommentLedHasNoSeparator(h, q);
    CleanPieceAfterComment(h, q);
    CorrectedOfKeptPiece("--" + h + "\n" + q, Trim(q));
  }

  /** On pieces that do not start with a comment, the correction changes
      nothing. */
  lemma CorrectedAgreesWithoutComments(schema: string)
    requires forall i :: 0 <= i < |Split(schema, ';')| ==> !StartsWith(TrimStart(Split(schema, ';')[i]), "--")
    ensures CorrectedStatements(schema) == Statements(schema)
  {
    var chunks := Split(schema, ';');
    forall i | 0 <= i < |chunks|
      ensures CleanPieces(chunks)[i] == TrimAll(chunks)[i]
    {
      CleanPieceWithoutComment(chunks[i]);
    }
    assert CleanPieces(chunks) == TrimAll(chunks);
  }
}
