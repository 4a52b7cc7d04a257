/** The ClickHouse query template: placeholders, the split at VALUES, and the rewrite to a multi-row insert. */
module Query {
  import opened Prelude

  // ---------------------------------------------------------------- placeholders

  datatype Field = Payload | Id | Timestamp | Type | Source | Subject | Predicate | Specversion {
    function Name(): string {
      match this
      case Payload => "payload"
      case Id => "id"
      case Timestamp => "timestamp"
      case Type => "type"
      case Source => "source"
      case Subject => "subject"
      case Predicate => "predicate"
      case Specversion => "specversion"
    }
  }

  function FieldNamed(s: string): (f: Option<Field>)
    ensures f.Some? ==> f.value.Name() == s
  {
    if s == "payload" then Some(Payload)
    else if s == "id" then Some(Id)
    else if s == "timestamp" then Some(Timestamp)
    else if s == "type" then Some(Type)
    else if s == "source" then Some(Source)
    else if s == "subject" then Some(Subject)
    else if s == "predicate" then Some(Predicate)
    else if s == "specversion" then Some(Specversion)
    else None
  }

  datatype Scanned = Scanned(sql: string, fields: seq<Field>)

  /** Index of the next closing brace, or the end. */
  function Close(t: string, i: nat): (j: nat)
    requires i <= |t|
    ensures i <= j <= |t| && '}' !in t[i..j] && (j < |t| ==> t[j] == '}')
    decreases |t| - i
  {
    if i == |t| || t[i] == '}' then i else Close(t, i + 1)
  }

  /** What the template reads as from position `i` on; nothing if a placeholder is unknown. */
  function Scan(t: string, i: nat): Option<Scanned>
    requires i <= |t|
    decreases |t| - i
  {
    if i == |t| then Some(Scanned("", []))
    else if t[i] == '{' then
      var j := Close(t, i + 1);
      var field := FieldNamed(t[i + 1..j]);
      var rest := Scan(t, Min(j + 1, |t|));
      if field.None? || rest.None? then None
      else Some(Scanned("?" + rest.value.sql, [field.value] + rest.value.fields))
    else
      var rest := Scan(t, i + 1);
      if rest.None? then None else Some(Scanned([t[i]] + rest.value.sql, rest.value.fields))
  }

  function Prepend(s: string, fs: seq<Field>, rest: Option<Scanned>): Option<Scanned> {
    if rest.None? then None else Some(Scanned(s + rest.value.sql, fs + rest.value.fields))
  }

  lemma PrependTwice(s: string, fs: seq<Field>, s': string, fs': seq<Field>, rest: Option<Scanned>)
    ensures Prepend(s, fs, Prepend(s', fs', rest)) == Prepend(s + s', fs + fs', rest)
  {
    if rest.Some? {
      assert s + (s' + rest.value.sql) == s + s' + rest.value.sql;
      assert fs + (fs' + rest.value.fields) == fs + fs' + rest.value.fields;
    }
  }

  lemma ScanStep(t: string, i: nat)
    requires i < |t|
    ensures t[i] != '{' ==> Scan(t, i) == Prepend([t[i]], [], Scan(t, i + 1))
    ensures t[i] == '{' ==>
              var j := Close(t, i + 1);
              var field := FieldNamed(t[i + 1..j]);
              Scan(t, i) == if field.None? then None else Prepend("?", [field.value], Scan(t, Min(j + 1, |t|)))
  {
    hide FieldNamed;
    var next := Scan(t, if t[i] == '{' then Min(Close(t, i + 1) + 1, |t|) else i + 1);
    if next.Some? { assert [] + next.value.fields == next.value.fields; }
  }

  /** Reads a placeholder up to its closing brace; one that is not closed ends at the end of the template. */
  method ReadPlaceholder(t: string, start: nat) returns (placeholder: string, i: nat)
    requires start <= |t|
    ensures i == Close(t, start) && placeholder == t[start..i]
  {
    placeholder, i := "", start;
    while i < |t| && t[i] != '}'
      invariant start <= i <= |t| && placeholder == t[start..i]
      invariant Close(t, start) == Close(t, i)
    {
      placeholder := placeholder + [t[i]];
      i := i + 1;
    }
  }

  /** The character loop of `parse`. */
  method ScanTemplate(t: string) returns (r: Option<Scanned>)
    ensures r == Scan(t, 0)
  {
    hide Scan, FieldNamed, Close, Prepend;
    var sql: string := "";
    var fields: seq<Field> := [];
    var i := 0;
    assert Scan(t, 0) == Prepend("", [], Scan(t, 0)) by { PrependNothing(Scan(t, 0)); }
    while i < |t|
      invariant 0 <= i <= |t|
      invariant Scan(t, 0) == Prepend(sql, fields, Scan(t, i))
    {
      ScanStep(t, i);
      if t[i] == '{' {
        var placeholder, close := ReadPlaceholder(t, i + 1);
        i := if close < |t| then close + 1 else close;
        var field := FieldNamed(placeholder);
        if field.None? {
          PrependNone(sql, fields);
          return None;
        }
        PrependTwice(sql, fields, "?", [field.value], Scan(t, i));
        fields := fields + [field.value];
        sql := sql + "?";
      } else {
        PrependTwice(sql, fields, [t[i]], [], Scan(t, i + 1));
        assert fields + [] == fields;
        sql := sql + [t[i]];
        i := i + 1;
      }
    }
    r := Some(Scanned(sql, fields));
    ScanEnds(t, sql, fields);
  }

  lemma PrependNothing(rest: Option<Scanned>)
    ensures Prepend("", [], rest) == rest
  {
    if rest.Some? { assert "" + rest.value.sql == rest.value.sql && [] + rest.value.fields == rest.value.fields; }
  }

  lemma PrependNone(s: string, fs: seq<Field>)
    ensures Prepend(s, fs, None) == None
  {
  }

  lemma ScanEnds(t: string, s: string, fs: seq<Field>)
    ensures Prepend(s, fs, Scan(t, |t|)) == Some(Scanned(s, fs))
  {
    assert s + "" == s && fs + [] == fs;
  }

  /** The eight placeholders and what they stand for; no other is known. */
  lemma KnownPlaceholders(s: string)
    ensures s == "payload" ==> FieldNamed(s) == Some(Payload)
    ensures s == "id" ==> FieldNamed(s) == Some(Id)
    ensures s == "timestamp" ==> FieldNamed(s) == Some(Timestamp)
    ensures s == "type" ==> FieldNamed(s) == Some(Type)
    ensures s == "source" ==> FieldNamed(s) == Some(Source)
    ensures s == "subject" ==> FieldNamed(s) == Some(Subject)
    ensures s == "predicate" ==> FieldNamed(s) == Some(Predicate)
    ensures s == "specversion" ==> FieldNamed(s) == Some(Specversion)
    ensures FieldNamed(s).Some? ==>
              s in ["payload", "id", "timestamp", "type", "source", "subject", "predicate", "specversion"]
  {
    var f := FieldNamed(s);
    if f.Some? { NamesKnown(f.value); }
  }

  /** A template as its author thinks of it. */
  datatype Token = Lit(c: char) | Hole(field: Field)

  function Written(tok: Token): string { if tok.Lit? then [tok.c] else "{" + tok.field.Name() + "}" }

  function Sign(tok: Token): string { if tok.Lit? then [tok.c] else "?" }

  function FieldsOf(tok: Token): seq<Field> { if tok.Lit? then [] else [tok.field] }

  function Write(ts: seq<Token>): string { if ts == [] then "" else Written(ts[0]) + Write(ts[1..]) }

  function Marked(ts: seq<Token>): string { if ts == [] then "" else Sign(ts[0]) + Marked(ts[1..]) }

  function Holes(ts: seq<Token>): seq<Field> { if ts == [] then [] else FieldsOf(ts[0]) + Holes(ts[1..]) }

  lemma NamesKnown(f: Field)
    ensures FieldNamed(f.Name()) == Some(f) && '}' !in f.Name()
  {
    match f {
      case Payload =>
      case Id =>
      case Timestamp =>
      case Type =>
      case Source =>
      case Subject =>
      case Predicate =>
      case Specversion =>
    }
  }

  lemma {:induction false} CloseAt(t: string, i: nat, j: nat)
    requires i <= j < |t| && '}' !in t[i..j] && t[j] == '}'
    ensures Close(t, i) == j
    decreases j - i
  {
    if i < j {
      assert t[i] == t[i..j][0] && t[i + 1..j] == t[i..j][1..];
      CloseAt(t, i + 1, j);
    }
  }

  lemma SliceOfMiddle(a: string, b: string, c: string, i: nat, j: nat)
    requires i <= j <= |b|
    ensures (a + b + c)[|a| + i..|a| + j] == b[i..j]
  {
  }

  lemma ScanHole(before: string, f: Field, after: string)
    ensures var t := before + ("{" + f.Name() + "}") + after;
            Scan(t, |before|) == Prepend("?", [f], Scan(t, |before| + 2 + |f.Name()|))
  {
    hide FieldNamed, Scan, Prepend;
    var name := f.Name();
    var w := "{" + name + "}";
    var t := before + w + after;
    hide Field.Name;
    ScanStep(t, |before|);
    NamesKnown(f);
    SliceOfMiddle(before, w, after, 1, 1 + |name|);
    assert w[1..1 + |name|] == name;
    CloseAt(t, |before| + 1, |before| + 1 + |name|);
  }

  lemma ScanToken(before: string, tok: Token, after: string)
    requires tok.Lit? ==> tok.c != '{'
    ensures var t := before + Written(tok) + after;
            Scan(t, |before|) == Prepend(Sign(tok), FieldsOf(tok), Scan(t, |before + Written(tok)|))
  {
    hide FieldNamed, Scan, Prepend, Field.Name;
    if tok.Lit? {
      ScanStep(before + Written(tok) + after, |before|);
    } else {
      ScanHole(before, tok.field, after);
    }
  }

  lemma {:induction false} ScanWritten(before: string, ts: seq<Token>, after: string)
    requires Plain(ts)
    ensures var t := before + Write(ts) + after;
            Scan(t, |before|) == Prepend(Marked(ts), Holes(ts), Scan(t, |before + Write(ts)|))
    decreases |ts|
  {
    hide Scan, Written, Sign, FieldsOf, Prepend;
    var t := before + Write(ts) + after;
    if ts == [] {
      assert before + Write(ts) == before;
      PrependNothing(Scan(t, |before|));
    } else {
      var head, rest := Written(ts[0]), ts[1..];
      assert t == before + head + (Write(rest) + after) && t == before + head + Write(rest) + after;
      assert before + Write(ts) == before + head + Write(rest);
      ScanToken(before, ts[0], Write(rest) + after);
      ScanWritten(before + head, rest, after);
      PrependTwice(Sign(ts[0]), FieldsOf(ts[0]), Marked(rest), Holes(rest), Scan(t, |before + Write(ts)|));
    }
  }

  /** No literal is an opening brace. */
  predicate Plain(ts: seq<Token>) { forall i :: 0 <= i < |ts| && ts[i].Lit? ==> ts[i].c != '{' }

  /** The template spells these tokens; the brace that closes a placeholder at the very end may be missing. */
  predicate Spells(t: string, ts: seq<Token>) {
    t == Write(ts) || (ts != [] && ts[|ts| - 1].Hole? && t + "}" == Write(ts))
  }

  ghost predicate ReadsAs(t: string, ts: seq<Token>) { Plain(ts) && Spells(t, ts) }

  lemma {:induction false} WriteSnoc(ts: seq<Token>, tok: Token)
    ensures Write(ts + [tok]) == Write(ts) + Written(tok)
    ensures Marked(ts + [tok]) == Marked(ts) + Sign(tok) && Holes(ts + [tok]) == Holes(ts) + FieldsOf(tok)
  {
    hide Written, Sign, FieldsOf;
    if ts == [] {
      assert [] + [tok] == [tok] && [tok][1..] == [];
      assert Write([tok]) == Written(tok) + "" && Marked([tok]) == Sign(tok) + "";
      assert Holes([tok]) == FieldsOf(tok) + [];
    } else {
      var rest := ts[1..];
      WriteSnoc(rest, tok);
      assert (ts + [tok])[1..] == rest + [tok] && (ts + [tok])[0] == ts[0];
      Regroup(Written(ts[0]), Write(rest), Written(tok));
      Regroup(Sign(ts[0]), Marked(rest), Sign(tok));
      Regroup(FieldsOf(ts[0]), Holes(rest), FieldsOf(tok));
    }
  }

  lemma Regroup<A>(a: seq<A>, b: seq<A>, c: seq<A>)
    ensures a + (b + c) == a + b + c
  {
  }

  /** A placeholder that is not closed is read as if it were. */
  lemma ScanUnclosed(before: string, f: Field)
    ensures Scan(before + "{" + f.Name(), |before|) == Some(Scanned("?", [f]))
  {
    hide FieldNamed, Field.Name, Scan, Prepend;
    var name := f.Name();
    var t := before + "{" + name;
    NamesKnown(f);
    assert t[|before| + 1..] == name;
    CloseNever(t, |before| + 1);
    ScanStep(t, |before|);
    assert t[|before| + 1..|t|] == name;
    ScanEnds(t, "?", [f]);
  }

  /** A template that ends inside a placeholder is accepted: `{id` stands for the identifier. */
  lemma UnclosedPlaceholder()
    ensures Scan("{id", 0) == Some(Scanned("?", [Id]))
  {
    ScanUnclosed("", Id);
    assert "" + "{" + "id" == "{id";
  }

  lemma {:induction false} CloseNever(t: string, i: nat)
    requires i <= |t| && '}' !in t[i..]
    ensures Close(t, i) == |t|
    decreases |t| - i
  {
    if i < |t| {
      assert t[i] == t[i..][0] && t[i + 1..] == t[i..][1..];
      CloseNever(t, i + 1);
    }
  }

  /** Reading a template gives back its text with `?` for each placeholder, and the placeholders in order. */
  lemma ReadingScans(t: string, ts: seq<Token>)
    requires ReadsAs(t, ts)
    ensures Scan(t, 0) == Some(Scanned(Marked(ts), Holes(ts)))
  {
    hide Scan, Written, Sign, FieldsOf;
    if t == Write(ts) {
      ScanWritten("", ts, "");
      assert "" + Write(ts) + "" == t && |"" + Write(ts)| == |t|;
      ScanEnds(t, Marked(ts), Holes(ts));
    } else {
      var n := |ts| - 1;
      var init, f := ts[..n], ts[n].field;
      assert ts == init + [ts[n]];
      WriteSnoc(init, ts[n]);
      HoleWritten(f);
      assert t == Write(init) + ("{" + f.Name()) by { hide Field.Name; WithoutBrace(t, Write(init), "{" + f.Name()); }
      ScanWritten("", init, "{" + f.Name());
      assert "" + Write(init) == Write(init);
      assert t == Write(init) + "{" + f.Name();
      ScanUnclosed(Write(init), f);
    }
  }

  lemma HoleWritten(f: Field)
    ensures Written(Hole(f)) == "{" + f.Name() + "}" && Sign(Hole(f)) == "?" && FieldsOf(Hole(f)) == [f]
  {
  }

  lemma WithoutBrace(t: string, a: string, b: string)
    requires t + "}" == a + (b + "}")
    ensures t == a + b
  {
    assert a + (b + "}") == a + b + "}";
    assert (t + "}")[..|t|] == t && (a + b + "}")[..|a + b|] == a + b;
  }

  /** Whatever is read without an error is the reading of some tokens. */
  lemma {:induction false} ScanReads(t: string, i: nat) returns (ts: seq<Token>)
    requires i <= |t| && Scan(t, i).Some?
    ensures ReadsAs(t[i..], ts) && Scan(t, i) == Some(Scanned(Marked(ts), Holes(ts)))
    decreases |t| - i
  {
    hide FieldNamed, Field.Name, ReadsAs, Marked, Holes;
    if i == |t| {
      ts := [];
      NothingReads();
      return;
    }
    ScanStep(t, i);
    hide Scan;
    if t[i] != '{' {
      var rest := ScanReads(t, i + 1);
      ts := [Lit(t[i])] + rest;
      assert t[i..] == [t[i]] + t[i + 1..];
      ConsReads(t[i + 1..], rest, Lit(t[i]));
    } else {
      var j := Close(t, i + 1);
      var f := FieldNamed(t[i + 1..j]).value;
      FieldSpelled(t[i + 1..j]);
      var rest := ScanReads(t, Min(j + 1, |t|));
      ts := [Hole(f)] + rest;
      HoleWritten(f);
      if j < |t| {
        assert t[i..] == "{" + t[i + 1..j] + "}" + t[j + 1..];
        ConsReads(t[j + 1..], rest, Hole(f));
      } else {
        assert t[|t|..] == "";
        EmptyReads(rest);
        assert [Hole(f)] + [] == [Hole(f)];
        UnclosedReads(f);
        NothingReads();
        assert t[i..] == "{" + t[i + 1..j];
        ConsReads("", [], Hole(f));
      }
    }
  }

  lemma NothingReads()
    ensures ReadsAs("", []) && Marked([]) == "" && Holes([]) == []
  {
  }

  lemma UnclosedReads(f: Field)
    ensures ReadsAs("{" + f.Name(), [Hole(f)])
  {
    hide Field.Name;
    assert [Hole(f)][1..] == [];
    assert Write([Hole(f)]) == Written(Hole(f)) + "";
  }

  lemma FieldSpelled(s: string)
    requires FieldNamed(s).Some?
    ensures FieldNamed(s).value.Name() == s
  {
  }

  lemma EmptyReads(ts: seq<Token>)
    requires ReadsAs("", ts)
    ensures ts == []
  {
    if ts != [] { TokensTakeRoom(ts); }
  }

  lemma TokensTakeRoom(ts: seq<Token>)
    requires ts != []
    ensures |Write(ts)| >= if ts[|ts| - 1].Hole? then 2 else 1
  {
    var n := |ts| - 1;
    assert ts == ts[..n] + [ts[n]];
    WriteSnoc(ts[..n], ts[n]);
  }

  lemma ConsReads(t: string, ts: seq<Token>, tok: Token)
    requires ReadsAs(t, ts) && (tok.Lit? ==> tok.c != '{')
    ensures ReadsAs(Written(tok) + t, [tok] + ts)
    ensures Write([tok] + ts) == Written(tok) + Write(ts)
    ensures Marked([tok] + ts) == Sign(tok) + Marked(ts) && Holes([tok] + ts) == FieldsOf(tok) + Holes(ts)
  {
    hide Written, Sign, FieldsOf;
    assert ([tok] + ts)[1..] == ts;
    if t != Write(ts) {
      assert Written(tok) + t + "}" == Written(tok) + (t + "}");
    }
  }

  // ---------------------------------------------------------------- the split at VALUES

  function Upper(c: char): char { if 'a' <= c <= 'z' then c - 'a' + 'A' else c }

  predicate IsIdent(c: char) { 'a' <= c <= 'z' || 'A' <= c <= 'Z' || '0' <= c <= '9' || c == '_' }

  /** White space as Unicode defines it. */
  predicate IsSpace(c: char) {
    var n := c as int;
    9 <= n <= 13 || n == 0x20 || n == 0x85 || n == 0xa0 || n == 0x1680 || 0x2000 <= n <= 0x200a
    || n == 0x2028 || n == 0x2029 || n == 0x202f || n == 0x205f || n == 0x3000
  }

  /** The keyword, in any case and as a whole word, stands at `i`. */
  predicate ValuesAt(sql: string, i: nat) {
    && i + 6 <= |sql|
    && (forall k :: 0 <= k < 6 ==> Upper(sql[i + k]) == "VALUES"[k])
    && (i == 0 || !IsIdent(sql[i - 1]))
    && (i + 6 == |sql| || !IsIdent(sql[i + 6]))
  }

  lemma Letters(word: string)
    requires |word| == 6
    ensures (forall k :: 0 <= k < 6 ==> Upper(word[k]) == "VALUES"[k]) <==>
              && word[0] in {'v', 'V'} && word[1] in {'a', 'A'} && word[2] in {'l', 'L'}
              && word[3] in {'u', 'U'} && word[4] in {'e', 'E'} && word[5] in {'s', 'S'}
  {
    var values := "VALUES";
    assert values[0] == 'V' && values[1] == 'A' && values[2] == 'L';
    assert values[3] == 'U' && values[4] == 'E' && values[5] == 'S';
  }

  /** Exactly the words that differ from VALUES in case only, with no letter, digit or underscore beside them. */
  lemma ValuesWord(before: string, word: string, after: string)
    requires |word| == 6
    ensures var beside := (c: char) => 'a' <= c <= 'z' || 'A' <= c <= 'Z' || '0' <= c <= '9' || c == '_';
            ValuesAt(before + word + after, |before|) <==>
              && word[0] in {'v', 'V'} && word[1] in {'a', 'A'} && word[2] in {'l', 'L'}
              && word[3] in {'u', 'U'} && word[4] in {'e', 'E'} && word[5] in {'s', 'S'}
              && (before != "" ==> !beside(before[|before| - 1])) && (after != "" ==> !beside(after[0]))
  {
    Letters(word);
    hide Upper;
    var sql := before + word + after;
    assert forall k :: 0 <= k < 6 ==> sql[|before| + k] == word[k];
    assert after != "" ==> sql[|before| + 6] == after[0];
    assert before != "" ==> sql[|before| - 1] == before[|before| - 1];
  }

  /** The last of its occurrences that start before `n`. */
  function LastValues(sql: string, n: nat): (i: Option<nat>)
    ensures i.Some? ==> i.value < n && ValuesAt(sql, i.value) && forall j :: i.value < j < n ==> !ValuesAt(sql, j)
    ensures i.None? ==> forall j :: 0 <= j < n ==> !ValuesAt(sql, j)
  {
    if n == 0 then None else if ValuesAt(sql, n - 1) then Some(n - 1) else LastValues(sql, n - 1)
  }

  predicate All(p: char -> bool, s: string) { forall i :: 0 <= i < |s| ==> p(s[i]) }

  function Leading(s: string): (k: nat)
    ensures k <= |s| && All(IsSpace, s[..k]) && (k < |s| ==> !IsSpace(s[k]))
  {
    if s == "" || !IsSpace(s[0]) then 0 else 1 + Leading(s[1..])
  }

  function TrimStart(s: string): string { s[Leading(s)..] }

  function TrimEnd(p: char -> bool, s: string): (r: string)
    ensures r <= s && All(p, s[|r|..]) && (r != "" ==> !p(r[|r| - 1]))
  {
    if s == "" || !p(s[|s| - 1]) then s
    else
      var r := TrimEnd(p, s[..|s| - 1]);
      assert s[|r|..] == s[..|s| - 1][|r|..] + [s[|s| - 1]];
      r
  }

  predicate IsSemicolon(c: char) { c == ';' }

  predicate IsFiller(c: char) { IsSpace(c) || c == ';' }

  function Tuple(rest: string): string {
    TrimEnd(IsSpace, TrimEnd(IsSemicolon, TrimEnd(IsSpace, TrimStart(rest))))
  }

  datatype Parsed = Parsed(sql: string, fields: seq<Field>, values: Option<(string, string)>)

  function Split(sql: string): (values: Option<(string, string)>)
  {
    var i := LastValues(sql, |sql|);
    if i.None? then None
    else
      var head, tuple := sql[..i.value + 6], Tuple(sql[i.value + 6..]);
      if tuple != "" && tuple[0] == '(' && tuple[|tuple| - 1] == ')' then Some((head, tuple)) else None
  }

  lemma AllConcat(p: char -> bool, a: string, b: string)
    requires All(p, a) && All(p, b)
    ensures All(p, a + b)
  {
  }

  lemma FillerOf(s: string)
    requires All(IsSpace, s) || All(IsSemicolon, s)
    ensures All(IsFiller, s)
  {
    hide IsSpace;
  }

  lemma TrimmedEnd(p: char -> bool, s: string) returns (tail: string)
    ensures s == TrimEnd(p, s) + tail && All(p, tail)
  {
    tail := s[|TrimEnd(p, s)|..];
  }

  lemma TrimmedStart(s: string) returns (lead: string)
    ensures s == lead + TrimStart(s) && All(IsSpace, lead)
  {
    lead := s[..Leading(s)];
  }

  lemma TupleShape(rest: string) returns (lead: string, a: string, b: string, c: string)
    ensures rest == lead + Tuple(rest) + a + b + c
    ensures All(IsSpace, lead) && All(IsSpace, a) && All(IsSemicolon, b) && All(IsSpace, c)
  {
    hide IsSpace, IsSemicolon, IsFiller, All, TrimEnd, TrimStart;
    var r0 := TrimStart(rest);
    lead := TrimmedStart(rest);
    var r1 := TrimEnd(IsSpace, r0);
    c := TrimmedEnd(IsSpace, r0);
    var r2 := TrimEnd(IsSemicolon, r1);
    b := TrimmedEnd(IsSemicolon, r1);
    a := TrimmedEnd(IsSpace, r2);
    Reassociate(lead, Tuple(rest), a, b, c);
  }

  lemma Reassociate(lead: string, t: string, a: string, b: string, c: string)
    ensures lead + (t + a + b + c) == lead + t + a + b + c && lead + t + a + b + c == lead + t + (a + b + c)
  {
  }

  predicate Parenthesised(s: string) { s != "" && s[0] == '(' && s[|s| - 1] == ')' }

  /** Head and tuple around the last VALUES, with white space before and white space and semicolons behind. */
  predicate Pieces(sql: string, i: nat, head: string, lead: string, tuple: string, a: string, b: string, c: string) {
    && LastValues(sql, |sql|) == Some(i) && i + 6 <= |sql| && head == sql[..i + 6]
    && sql == head + lead + tuple + a + b + c && Parenthesised(tuple)
    && All(IsSpace, lead) && All(IsSpace, a) && All(IsSemicolon, b) && All(IsSpace, c)
  }

  ghost predicate SplitsAs(sql: string, head: string, tuple: string) {
    exists i, lead, a, b, c :: Pieces(sql, i, head, lead, tuple, a, b, c)
  }

  lemma {:induction false} LeadingExactly(lead: string, rest: string)
    requires All(IsSpace, lead) && rest != "" && !IsSpace(rest[0])
    ensures TrimStart(lead + rest) == rest
    decreases |lead|
  {
    if lead == "" {
      assert lead + rest == rest && rest[0..] == rest;
    } else {
      assert (lead + rest)[1..] == lead[1..] + rest;
      assert IsSpace(lead[0]) && (lead + rest)[0] == lead[0];
      LeadingExactly(lead[1..], rest);
      var k := Leading(lead[1..] + rest);
      assert (lead + rest)[1 + k..] == (lead[1..] + rest)[k..];
    }
  }

  lemma {:induction false} TrimEndExactly(p: char -> bool, s: string, tail: string)
    requires All(p, tail) && s != "" && !p(s[|s| - 1])
    ensures TrimEnd(p, s + tail) == s
    decreases |tail|
  {
    if tail == "" {
      assert s + tail == s;
    } else {
      assert (s + tail)[..|s + tail| - 1] == s + tail[..|tail| - 1];
      TrimEndExactly(p, s, tail[..|tail| - 1]);
    }
  }

  /** Trimming undoes any white space and semicolons around a parenthesised tuple. */
  lemma TupleExactly(lead: string, tuple: string, a: string, b: string, c: string)
    requires Parenthesised(tuple)
    requires All(IsSpace, lead) && All(IsSpace, a) && All(IsSemicolon, b) && All(IsSpace, c)
    ensures Tuple(lead + tuple + a + b + c) == tuple
  {
    hide TrimStart, TrimEnd;
    var r := tuple + a + b + c;
    assert lead + tuple + a + b + c == lead + r;
    LeadingExactly(lead, r);
    if b == "" {
      AllConcat(IsSpace, a, c);
      assert r == tuple + (a + c);
      TrimEndExactly(IsSpace, tuple, a + c);
      TrimEndExactly(IsSemicolon, tuple, "");
      TrimEndExactly(IsSpace, tuple, "");
      assert tuple + "" == tuple;
    } else {
      assert !IsSpace(';') && b[|b| - 1] == ';';
      TrimEndExactly(IsSpace, tuple + a + b, c);
      SemicolonsGo(tuple, a, b);
    }
  }

  lemma SemicolonsGo(tuple: string, a: string, b: string)
    requires Parenthesised(tuple) && All(IsSpace, a) && All(IsSemicolon, b)
    ensures TrimEnd(IsSpace, TrimEnd(IsSemicolon, tuple + a + b)) == tuple
  {
    hide TrimEnd;
    assert a != "" ==> IsSpace(a[|a| - 1]);
    assert !IsSpace(';') && (tuple + a)[|tuple + a| - 1] != ';';
    TrimEndExactly(IsSemicolon, tuple + a, b);
    TrimEndExactly(IsSpace, tuple, a);
  }

  /** The split is the only one there is: it succeeds exactly if the text behind the last VALUES is a tuple. */
  lemma SplitExactly(sql: string, head: string, tuple: string)
    ensures Split(sql) == Some((head, tuple)) <==> SplitsAs(sql, head, tuple)
  {
    hide Tuple, LastValues, IsSpace, IsSemicolon;
    if Split(sql) == Some((head, tuple)) {
      var i := LastValues(sql, |sql|).value;
      var lead, a, b, c := TupleShape(sql[i + 6..]);
      assert sql == head + sql[i + 6..];
      assert Pieces(sql, i, head, lead, tuple, a, b, c);
    }
    if SplitsAs(sql, head, tuple) {
      var i, lead, a, b, c :| Pieces(sql, i, head, lead, tuple, a, b, c);
      TupleExactly(lead, tuple, a, b, c);
      assert sql == head + (lead + tuple + a + b + c);
      assert sql[i + 6..] == lead + tuple + a + b + c;
    }
  }

  /** The statement is its head, white space, the tuple, and white space or semicolons. */
  lemma SplitShape(sql: string) returns (lead: string, tail: string)
    requires Split(sql).Some?
    ensures var (head, tuple) := Split(sql).value;
            sql == head + lead + tuple + tail && All(IsSpace, lead) && All(IsFiller, tail)
  {
    hide Tuple, LastValues, IsSpace, IsSemicolon, IsFiller, All;
    var (head, tuple) := Split(sql).value;
    SplitExactly(sql, head, tuple);
    var i, l, a, b, c :| Pieces(sql, i, head, l, tuple, a, b, c);
    lead, tail := l, a + b + c;
    FillerOf(a);
    FillerOf(b);
    FillerOf(c);
    AllConcat(IsFiller, a, b);
    AllConcat(IsFiller, a + b, c);
    assert head + l + tuple + a + b + c == head + l + tuple + (a + b + c);
  }

  function ParsedOf(t: string): Option<Parsed> {
    var s := Scan(t, 0);
    if s.None? || s.value.fields == [] then None
    else Some(Parsed(s.value.sql, s.value.fields, Split(s.value.sql)))
  }

  /**
   * `ParsedQuery::parse`. It succeeds exactly on a template that spells tokens with at least one placeholder,
   * and then yields their text with `?` for the placeholders, the placeholders in order, and the one way to
   * split the text into a head that ends with the last VALUES and a parenthesised tuple, if there is one.
   */
  method Parse(t: string) returns (r: Option<Parsed>)
    ensures r == ParsedOf(t)
    ensures r.Some? <==> exists ts :: ReadsAs(t, ts) && Holes(ts) != []
    ensures r.Some? ==> forall ts :: ReadsAs(t, ts) ==> r.value.sql == Marked(ts) && r.value.fields == Holes(ts)
    ensures r.Some? ==>
              forall head, tuple :: SplitsAs(r.value.sql, head, tuple) <==> r.value.values == Some((head, tuple))
  {
    hide Scan, Split, ReadsAs;
    var scanned := ScanTemplate(t);
    forall ts | ReadsAs(t, ts)
      ensures scanned == Some(Scanned(Marked(ts), Holes(ts)))
    {
      ReadingScans(t, ts);
    }
    if scanned.Some? {
      ghost var ts := ScanReads(t, 0);
      assert t[0..] == t;
    }
    if scanned.None? || scanned.value.fields == [] { return None; }
    forall head, tuple
      ensures SplitsAs(scanned.value.sql, head, tuple) <==> Split(scanned.value.sql) == Some((head, tuple))
    {
      SplitExactly(scanned.value.sql, head, tuple);
    }
    r := Some(Parsed(scanned.value.sql, scanned.value.fields, Split(scanned.value.sql)));
  }

  /** The tuple repeated, separated by commas. */
  function Repeated(tuple: string, n: nat): string {
    if n == 0 then "" else if n == 1 then tuple else tuple + ", " + Repeated(tuple, n - 1)
  }

  function BatchSql(q: Parsed, rows: nat): Option<string> {
    if q.values.None? then None else Some(q.values.value.0 + " " + Repeated(q.values.value.1, rows))
  }

  // ---------------------------------------------------------------- binding

  function Marks(s: string): nat {
    if s == "" then 0 else (if s[0] == '?' then 1 else 0) + Marks(s[1..])
  }

  /** A statement with its parameters in place. */
  datatype Piece = Ch(c: char) | Val(v: string)

  /** Each `?` takes the next parameter; nothing if there are too few or too many. */
  function Bind(sql: string, params: seq<string>): (r: Option<seq<Piece>>)
    ensures r.Some? <==> |params| == Marks(sql)
    ensures r.Some? ==> |r.value| == |sql|
  {
    if sql == "" then if params == [] then Some([]) else None
    else if sql[0] == '?' then
      if params == [] then None
      else
        var rest := Bind(sql[1..], params[1..]);
        if rest.Some? then Some([Val(params[0])] + rest.value) else None
    else
      var rest := Bind(sql[1..], params);
      if rest.Some? then Some([Ch(sql[0])] + rest.value) else None
  }

  function Bound(sql: string, params: seq<string>): seq<Piece>
    requires |params| == Marks(sql)
  {
    Bind(sql, params).value
  }

  function Text(s: string): seq<Piece> { seq(|s|, i requires 0 <= i < |s| => Ch(s[i])) }

  function Flatten(rows: seq<seq<string>>): seq<string> {
    if rows == [] then [] else rows[0] + Flatten(rows[1..])
  }

  lemma {:induction false} MarksConcat(a: string, b: string)
    ensures Marks(a + b) == Marks(a) + Marks(b)
  {
    if a == "" {
      assert a + b == b;
    } else {
      assert (a + b)[1..] == a[1..] + b;
      MarksConcat(a[1..], b);
    }
  }

  lemma {:induction false} BindConcat(a: string, b: string, p: seq<string>, q: seq<string>)
    requires |p| == Marks(a) && |q| == Marks(b)
    ensures Marks(a + b) == |p + q| && Bound(a + b, p + q) == Bound(a, p) + Bound(b, q)
    decreases |a|
  {
    MarksConcat(a, b);
    if a == "" {
      assert a + b == b && p + q == q;
    } else {
      assert (a + b)[1..] == a[1..] + b;
      if a[0] == '?' {
        assert (p + q)[1..] == p[1..] + q;
        BindConcat(a[1..], b, p[1..], q);
      } else {
        BindConcat(a[1..], b, p, q);
      }
    }
  }

  lemma {:induction false} BindText(s: string)
    requires Marks(s) == 0
    ensures Bound(s, []) == Text(s)
  {
    if s != "" {
      BindText(s[1..]);
      assert Text(s) == [Ch(s[0])] + Text(s[1..]);
    }
  }

  lemma {:induction false} NoMarks(s: string)
    requires '?' !in s
    ensures Marks(s) == 0
  {
    if s != "" { NoMarks(s[1..]); }
  }

  lemma FillerHasNoMarks(s: string)
    requires All(IsFiller, s) || All(IsSpace, s)
    ensures Marks(s) == 0
  {
    NoMarks(s);
  }

  lemma {:induction false} RepeatedMarks(tuple: string, n: nat)
    ensures Marks(Repeated(tuple, n)) == n * Marks(tuple)
  {
    if n > 1 {
      RepeatedMarks(tuple, n - 1);
      NoMarks(", ");
      MarksConcat(tuple, ", ");
      MarksConcat(tuple + ", ", Repeated(tuple, n - 1));
    }
  }

  // ---------------------------------------------------------------- what the rewrite means

  lemma {:induction false} ScanMarks(t: string, i: nat)
    requires i <= |t| && Scan(t, i).Some?
    ensures Marks(Scan(t, i).value.sql) == |Scan(t, i).value.fields| + Literals(t, i)
    decreases |t| - i
  {
    if i < |t| {
      if t[i] == '{' {
        ScanMarks(t, Min(Close(t, i + 1) + 1, |t|));
        MarksConcat("?", Scan(t, Min(Close(t, i + 1) + 1, |t|)).value.sql);
      } else {
        ScanMarks(t, i + 1);
        MarksConcat([t[i]], Scan(t, i + 1).value.sql);
      }
    }
  }

  /** The question marks of the template outside placeholders. */
  function Literals(t: string, i: nat): nat
    requires i <= |t|
    decreases |t| - i
  {
    if i == |t| then 0
    else if t[i] == '{' then Literals(t, Min(Close(t, i + 1) + 1, |t|))
    else (if t[i] == '?' then 1 else 0) + Literals(t, i + 1)
  }

  lemma MarksOfBatch(t: string, n: nat)
    requires ParsedOf(t).Some? && ParsedOf(t).value.values.Some?
    ensures var q := ParsedOf(t).value;
            var (head, tuple) := q.values.value;
            && Marks(BatchSql(q, n).value) == Marks(head) + n * Marks(tuple)
            && Marks(head) + Marks(tuple) == Marks(q.sql) == |q.fields| + Literals(t, 0)
  {
    hide Scan, Literals, Marks, Split, Repeated;
    var q := ParsedOf(t).value;
    var (head, tuple) := q.values.value;
    var lead, tail := SplitShape(q.sql);
    ScanMarks(t, 0);
    FillerHasNoMarks(lead);
    FillerHasNoMarks(tail);
    MarksConcat(head + lead + tuple, tail);
    MarksConcat(head + lead, tuple);
    MarksConcat(head, lead);
    RepeatedMarks(tuple, n);
    NoMarks(" ");
    MarksConcat(head + " ", Repeated(tuple, n));
    MarksConcat(head, " ");
  }

  /**
   * The rows, flattened, can be bound to the multi-row statement if and only if the literal question marks
   * make up for what the head does not repeat; for a template without literal question marks, if and only if
   * there is one row or no placeholder stands before the tuple.
   */
  lemma BatchBindsExactlyWhen(t: string, rows: seq<seq<string>>)
    requires ParsedOf(t).Some? && ParsedOf(t).value.values.Some?
    requires forall row :: row in rows ==> |row| == |ParsedOf(t).value.fields|
    ensures var q, n := ParsedOf(t).value, |rows|;
            var binds := Bind(BatchSql(q, n).value, Flatten(rows)).Some?;
            && (binds <==> n * Literals(t, 0) == (n - 1) * Marks(q.values.value.0))
            && (Literals(t, 0) == 0 ==> (binds <==> n == 1 || Marks(q.values.value.0) == 0))
  {
    var q, n := ParsedOf(t).value, |rows|;
    assert BatchSql(q, n).Some?;
    hide Marks, Literals, ParsedOf, BatchSql, Bind, Flatten;
    MarksOfBatch(t, n);
    FlatLength(rows, |q.fields|);
    BindCount(BatchSql(q, n).value, Flatten(rows));
    var h, l, f, u := Marks(q.values.value.0), Literals(t, 0), |q.fields|, Marks(q.values.value.1);
    Distribute(n, h, l, f, u);
  }

  lemma BindCount(sql: string, params: seq<string>)
    ensures Bind(sql, params).Some? <==> |params| == Marks(sql)
  {
  }

  lemma Distribute(n: nat, h: nat, l: nat, f: nat, u: nat)
    requires h + u == f + l
    ensures h + n * u == n * f <==> n * l == (n - 1) * h
    ensures l == 0 ==> (n * l == (n - 1) * h <==> n == 1 || h == 0)
  {
    assert n * u == n * f + n * l - n * h;
    assert (n - 1) * h == n * h - h;
  }

  /** Rows of bound tuples, separated as in the statement. */
  function BoundRows(tuple: string, rows: seq<seq<string>>): seq<Piece>
    requires forall row :: row in rows ==> |row| == Marks(tuple)
  {
    if rows == [] then []
    else if |rows| == 1 then Bound(tuple, rows[0])
    else Bound(tuple, rows[0]) + Text(", ") + BoundRows(tuple, rows[1..])
  }

  lemma {:induction false} BindRepeated(tuple: string, rows: seq<seq<string>>)
    requires forall row :: row in rows ==> |row| == Marks(tuple)
    ensures |Flatten(rows)| == Marks(Repeated(tuple, |rows|))
    ensures Bound(Repeated(tuple, |rows|), Flatten(rows)) == BoundRows(tuple, rows)
  {
    if |rows| == 1 {
      assert Flatten(rows) == rows[0] + Flatten([]) == rows[0];
    } else if |rows| > 1 {
      BindRepeated(tuple, rows[1..]);
      NoMarks(", ");
      BindText(", ");
      BindConcat(tuple, ", ", rows[0], []);
      assert rows[0] + [] == rows[0];
      BindConcat(tuple + ", ", Repeated(tuple, |rows| - 1), rows[0], Flatten(rows[1..]));
    }
  }

  /**
   * The rewrite preserves meaning. For a template whose placeholders all stand in the tuple and that has no
   * literal question mark, binding one row to the plain statement gives the head, the bound tuple and nothing
   * else but white space and semicolons; binding all rows, flattened, to the multi-row statement gives the
   * head and then the very same bound tuples in order.
   */
  lemma MultiRowPreservesMeaning(t: string, rows: seq<seq<string>>) returns (lead: string, tail: string)
    requires ParsedOf(t).Some? && ParsedOf(t).value.values.Some? && Literals(t, 0) == 0
    requires Marks(ParsedOf(t).value.values.value.0) == 0
    requires forall row :: row in rows ==> |row| == |ParsedOf(t).value.fields|
    ensures All(IsSpace, lead) && All(IsFiller, tail)
    ensures var q := ParsedOf(t).value;
            var (head, tuple) := q.values.value;
            && Marks(tuple) == |q.fields|
            && (forall row :: row in rows ==>
                  Bind(q.sql, row) == Some(Text(head) + Text(lead) + Bound(tuple, row) + Text(tail)))
            && Bind(BatchSql(q, |rows|).value, Flatten(rows)) == Some(Text(head) + Text(" ") + BoundRows(tuple, rows))
  {
    hide Literals, Marks, ParsedOf, Split, Repeated, Bind, BoundRows, Text, Flatten;
    MarksOfBatch(t, |rows|);
    var q := ParsedOf(t).value;
    var (head, tuple) := q.values.value;
    lead, tail := SplitOf(t);
    forall row | row in rows
      ensures Bind(q.sql, row) == Some(Text(head) + Text(lead) + Bound(tuple, row) + Text(tail))
    {
      BindSingle(head, lead, tuple, tail, row);
    }
    BindBatch(head, tuple, rows);
  }

  lemma BindBatch(head: string, tuple: string, rows: seq<seq<string>>)
    requires Marks(head) == 0 && forall row :: row in rows ==> |row| == Marks(tuple)
    ensures Bind(head + " " + Repeated(tuple, |rows|), Flatten(rows)) ==
              Some(Text(head) + Text(" ") + BoundRows(tuple, rows))
  {
    hide Marks, Repeated, Bind, BoundRows, Text, Flatten;
    BindRepeated(tuple, rows);
    NoMarks(" ");
    BindText(" ");
    BindText(head);
    BindConcat(head, " ", [], []);
    BindConcat(head + " ", Repeated(tuple, |rows|), [] + [], Flatten(rows));
    assert [] + [] + Flatten(rows) == Flatten(rows);
  }

  lemma SplitOf(t: string) returns (lead: string, tail: string)
    requires ParsedOf(t).Some? && ParsedOf(t).value.values.Some?
    ensures var q := ParsedOf(t).value;
            && q.sql == q.values.value.0 + lead + q.values.value.1 + tail
            && All(IsSpace, lead) && All(IsFiller, tail)
  {
    hide Split, Scan;
    lead, tail := SplitShape(ParsedOf(t).value.sql);
  }

  lemma BindSingle(head: string, lead: string, tuple: string, tail: string, row: seq<string>)
    requires Marks(head) == 0 && |row| == Marks(tuple)
    requires All(IsSpace, lead) && All(IsFiller, tail)
    ensures Bind(head + lead + tuple + tail, row) == Some(Text(head) + Text(lead) + Bound(tuple, row) + Text(tail))
  {
    hide Marks, Bind;
    FillerHasNoMarks(lead);
    FillerHasNoMarks(tail);
    BindText(head);
    BindText(lead);
    BindText(tail);
    BindConcat(head, lead, [], []);
    assert [] + row == row && row + [] == row;
    BindConcat(head + lead, tuple, [] + [], row);
    BindConcat(head + lead + tuple, tail, row, []);
  }

  lemma OneLess(n: nat, width: nat)
    requires n > 0
    ensures (n - 1) * width == n * width - width
  {
  }

  lemma {:induction false} FlatLength(rows: seq<seq<string>>, width: nat)
    requires forall row :: row in rows ==> |row| == width
    ensures |Flatten(rows)| == |rows| * width
  {
    if rows != [] {
      FlatLength(rows[1..], width);
      OneLess(|rows|, width);
      assert rows[0] in rows;
    }
  }

  /** Row `i`, field `j` is bound at position `i * |fields| + j`. */
  lemma {:induction false} ParameterPosition(rows: seq<seq<string>>, width: nat, i: nat, j: nat)
    requires i < |rows| && j < width && forall row :: row in rows ==> |row| == width
    ensures 0 <= i * width + j < |Flatten(rows)| && Flatten(rows)[i * width + j] == rows[i][j]
    decreases |rows|
  {
    assert rows[0] in rows;
    if i > 0 {
      ParameterPosition(rows[1..], width, i - 1, j);
      OneLess(i, width);
      var at := (i - 1) * width + j;
      assert Flatten(rows)[width + at] == Flatten(rows[1..])[at];
    }
  }
}
