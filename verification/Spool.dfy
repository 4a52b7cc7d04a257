/**
 * The JSONL spool of a slot, byte by byte: what a group append writes, what a torn append
 * leaves, and what `Slot::open` reads back.
 */
module Spool {
  import opened Prelude
  import opened Utf8

  const LF: Byte := 10
  const CR: Byte := 13

  /** Serialisation of one item: `enc` is `serde_json::to_writer`, `dec` is `serde_json::from_str`. */
  datatype Codec<!T> = Codec(enc: T -> seq<Byte>, dec: seq<Byte> -> Option<T>)

  /** What is taken from the JSON library about records that are objects or arrays. */
  ghost predicate Good<T(!new)>(c: Codec<T>) {
    forall x: T :: GoodRecord(c, x)
  }

  ghost predicate GoodRecord<T>(c: Codec<T>, x: T) {
    && Valid(c.enc(x))
    && LF !in c.enc(x) && CR !in c.enc(x)
    && !Blank(c.enc(x))
    && c.dec(c.enc(x)) == Some(x)
    && (forall k :: 0 <= k < |c.enc(x)| ==> c.dec(c.enc(x)[..k]) == None)
  }

  /** The encoding of two values as the JSON arrays `["é"]` and `[0]`. */
  function AccentCodec(): Codec<bool> {
    Codec((x: bool) => if x then [0x5B, 0x22, 0xC3, 0xA9, 0x22, 0x5D] else [0x5B, 0x30, 0x5D],
          (s: seq<Byte>) => if s == [0x5B, 0x22, 0xC3, 0xA9, 0x22, 0x5D] then Some(true)
                            else if s == [0x5B, 0x30, 0x5D] then Some(false)
                            else None)
  }

  /** What is assumed of an encoding can be met. */
  lemma SomeCodecIsGood()
    ensures Good(AccentCodec())
  {
    forall x: bool
      ensures GoodRecord(AccentCodec(), x)
    {
      AccentRecord(x);
    }
  }

  lemma ValidStep(s: seq<Byte>)
    requires CharWidth(s) > 0 && Valid(s[CharWidth(s)..])
    ensures Valid(s)
  {
  }

  lemma AccentRecord(x: bool)
    ensures GoodRecord(AccentCodec(), x)
  {
    var rec: seq<Byte> := AccentCodec().enc(x);
    if x {
      assert rec[5..][1..] == [] && rec[4..][1..] == rec[5..];
      assert rec[2..][2..] == rec[4..] && rec[1..][1..] == rec[2..];
      ValidStep(rec[5..]);
      ValidStep(rec[4..]);
      ValidStep(rec[2..]);
    } else {
      assert rec[2..][1..] == [] && rec[1..][1..] == rec[2..];
      ValidStep(rec[2..]);
    }
    ValidStep(rec[1..]);
    ValidStep(rec);
    forall k | 0 <= k < |rec|
      ensures AccentCodec().dec(rec[..k]) == None
    {
      assert |rec[..k]| == k;
      if k == 3 { assert rec[..k][1] == rec[1]; }
    }
  }

  /** Width of the Unicode white space at the front of `s`, 0 when there is none. */
  function SpaceWidth(s: seq<Byte>): (w: nat)
    ensures w <= |s|
  {
    if s == [] then 0
    else if 9 <= s[0] <= 13 || s[0] == 32 then 1
    else if s[0] == 0xC2 then
      if |s| >= 2 && (s[1] == 0x85 || s[1] == 0xA0) then 2 else 0
    else if |s| < 3 then 0
    else if s[0] == 0xE1 && s[1] == 0x9A && s[2] == 0x80 then 3
    else if s[0] == 0xE2 && s[1] == 0x80 && (0x80 <= s[2] <= 0x8A || 0xA8 <= s[2] <= 0xA9 || s[2] == 0xAF) then 3
    else if s[0] == 0xE2 && s[1] == 0x81 && s[2] == 0x9F then 3
    else if s[0] == 0xE3 && s[1] == 0x80 && s[2] == 0x80 then 3
    else 0
  }

  /** `line.trim().is_empty()`. */
  predicate Blank(s: seq<Byte>)
    decreases |s|
  {
    s == [] || (SpaceWidth(s) > 0 && Blank(s[SpaceWidth(s)..]))
  }

  // ---------------------------------------------------------------- reading

  /** Index of the first line feed, `|f|` when there is none. */
  function LineEnd(f: seq<Byte>): (k: nat)
    ensures k <= |f|
    ensures LF !in f[..k]
    ensures k < |f| ==> f[k] == LF
  {
    if f == [] || f[0] == LF then 0 else
      var k := 1 + LineEnd(f[1..]);
      assert f[..k] == [f[0]] + f[1..][..k - 1];
      k
  }

  /** `BufRead::lines` drops the carriage return of a `\r\n` ending. */
  function DropCr(line: seq<Byte>): seq<Byte> {
    if line != [] && line[|line| - 1] == CR then line[..|line| - 1] else line
  }

  /** What one line contributes: an error (invalid UTF-8), nothing, or an item. */
  function ReadLine<T>(c: Codec<T>, line: seq<Byte>): Option<seq<T>> {
    if !Valid(line) then None
    else if Blank(line) then Some([])
    else match c.dec(line) case Some(x) => Some([x]) case None => Some([])
  }

  function Join<T>(a: Option<seq<T>>, b: Option<seq<T>>): (r: Option<seq<T>>)
    ensures a == Some([]) ==> r == b
    ensures b == Some([]) ==> r == a
  {
    if a.Some? && b.Some? then
      assert a.value == [] ==> a.value + b.value == b.value;
      assert b.value == [] ==> a.value + b.value == a.value;
      Some(a.value + b.value)
    else None
  }

  lemma JoinAssociative<T>(a: Option<seq<T>>, b: Option<seq<T>>, d: Option<seq<T>>)
    ensures Join(Join(a, b), d) == Join(a, Join(b, d))
  {
    if a.Some? && b.Some? && d.Some? {
      assert a.value + b.value + d.value == a.value + (b.value + d.value);
    }
  }

  /** The items `Slot::open` loads from a file, `None` when it fails. */
  function Load<T>(c: Codec<T>, f: seq<Byte>): Option<seq<T>>
    decreases |f|
  {
    if f == [] then Some([])
    else
      var k := LineEnd(f);
      if k == |f| then ReadLine(c, f)
      else Join(ReadLine(c, DropCr(f[..k])), Load(c, f[k + 1..]))
  }

  /** `Slot::open`: the loop over the lines of the file left by the previous run. */
  method LoadLoop<T>(c: Codec<T>, f: seq<Byte>) returns (items: Option<seq<T>>)
    ensures items == Load(c, f)
  {
    var acc, pos := [], 0;
    assert f[pos..] == f;
    while pos < |f|
      invariant pos <= |f|
      invariant Load(c, f) == Join(Some(acc), Load(c, f[pos..]))
      decreases |f| - pos
    {
      var rest := f[pos..];
      var k := LineEnd(rest);
      var line := if k < |rest| then DropCr(rest[..k]) else rest;
      var next := if k < |rest| then pos + k + 1 else |f|;
      assert f[next..] == if k < |rest| then rest[k + 1..] else [];
      assert Load(c, rest) == Join(ReadLine(c, line), Load(c, f[next..]));
      JoinAssociative(Some(acc), ReadLine(c, line), Load(c, f[next..]));
      if !Valid(line) {
        return None;
      }
      if !Blank(line) {
        match c.dec(line) {
          case Some(x) => acc := acc + [x];
          case None =>  // skip unreadable spooled event
        }
      }
      pos := next;
    }
    return Some(acc);
  }

  /** Reading is a homomorphism at a line feed: a torn tail never reaches past the next append. */
  lemma {:induction false} LoadConcat<T>(c: Codec<T>, a: seq<Byte>, g: seq<Byte>)
    requires CR !in a
    requires g == [] || g[0] == LF
    ensures Load(c, a + g) == Join(Load(c, a), Load(c, g))
    decreases |a|
  {
    if g == [] {
      assert a + g == a;
    } else if a == [] {
      assert a + g == g;
    } else {
      var k := LineEnd(a);
      LineEndConcat(a, g);
      assert (a + g)[..k] == a[..k];
      if k < |a| {
        assert (a + g)[k + 1..] == a[k + 1..] + g;
        LoadConcat(c, a[k + 1..], g);
        JoinAssociative(ReadLine(c, DropCr(a[..k])), Load(c, a[k + 1..]), Load(c, g));
      } else {
        assert a[..k] == a;
        assert (a + g)[k + 1..] == g[1..];
        LoadLeadingFeed(c, g);
      }
    }
  }

  lemma LoadLeadingFeed<T>(c: Codec<T>, g: seq<Byte>)
    requires g != [] && g[0] == LF
    ensures Load(c, g) == Load(c, g[1..])
  {
    assert LineEnd(g) == 0;
    assert DropCr(g[..0]) == [];
    assert ReadLine(c, []) == Some([]);
    if |g| == 1 {
      assert g[1..] == [];
    }
  }

  lemma {:induction false} LineEndConcat(a: seq<Byte>, g: seq<Byte>)
    requires g != [] && g[0] == LF
    ensures LineEnd(a + g) == LineEnd(a)
  {
    if a == [] {
      assert a + g == g;
    } else if a[0] != LF {
      assert (a + g)[1..] == a[1..] + g;
      LineEndConcat(a[1..], g);
    }
  }

  // ---------------------------------------------------------------- writing

  /** The bytes `push_all` prepares for a group: every record behind a leading line feed. */
  function Group<T>(c: Codec<T>, items: seq<T>): seq<Byte> {
    if items == [] then [] else [LF] + c.enc(items[0]) + Group(c, items[1..])
  }

  /** One append of a group, of which only the first `cut` bytes reached the file. */
  datatype Write<T> = Write(items: seq<T>, cut: nat)

  predicate Fits<T>(c: Codec<T>, w: Write<T>) { w.cut <= |Group(c, w.items)| }

  function Bytes<T>(c: Codec<T>, w: Write<T>): seq<Byte>
    requires Fits(c, w)
  {
    Group(c, w.items)[..w.cut]
  }

  /** The append did not stop inside a multi-byte character. */
  predicate OnBoundary<T>(c: Codec<T>, w: Write<T>) {
    w.cut >= |Group(c, w.items)| || !IsContinuation(Group(c, w.items)[w.cut])
  }

  /** How many records of the group lie entirely within its first `cut` bytes. */
  function Whole<T>(c: Codec<T>, items: seq<T>, cut: nat): (n: nat)
    ensures n <= |items|
  {
    if items == [] || cut < 1 + |c.enc(items[0])| then 0
    else 1 + Whole(c, items[1..], cut - 1 - |c.enc(items[0])|)
  }

  function Kept<T>(c: Codec<T>, w: Write<T>): seq<T> { w.items[..Whole(c, w.items, w.cut)] }

  /** A complete append keeps its whole group. */
  lemma {:induction false} CompleteAppend<T>(c: Codec<T>, items: seq<T>)
    ensures Kept(c, Write(items, |Group(c, items)|)) == items
  {
    if items != [] {
      CompleteAppend(c, items[1..]);
    }
  }

  /** A record cut anywhere reads back as itself, as nothing, or as an error. */
  lemma LoadCutRecord<T>(c: Codec<T>, x: T, k: nat)
    requires GoodRecord(c, x) && k <= |c.enc(x)|
    ensures Load(c, [LF] + c.enc(x)[..k]) ==
            if k == |c.enc(x)| then Some([x]) else if IsContinuation(c.enc(x)[k]) then None else Some([])
    ensures CR !in [LF] + c.enc(x)[..k]
  {
    var rec := c.enc(x);
    LoadRecord(c, rec[..k]);
    ValidPrefix(rec, k);
    if k == |rec| {
      assert rec[..k] == rec;
    }
  }

  lemma GroupHead<T>(c: Codec<T>, items: seq<T>)
    requires items != []
    ensures |Group(c, items)| == 1 + |c.enc(items[0])| + |Group(c, items[1..])|
    ensures Group(c, items)[1 + |c.enc(items[0])|..] == Group(c, items[1..])
    ensures Group(c, items)[..1 + |c.enc(items[0])|] == [LF] + c.enc(items[0])
  {
  }

  /** One torn append reads back as its whole records, unless the tear splits a character. */
  lemma {:induction false} LoadWrite<T(!new)>(c: Codec<T>, w: Write<T>)
    requires Good(c) && Fits(c, w)
    ensures Load(c, Bytes(c, w)) == if OnBoundary(c, w) then Some(Kept(c, w)) else None
    ensures CR !in Bytes(c, w)
    ensures Bytes(c, w) == [] || Bytes(c, w)[0] == LF
    decreases |w.items|, 1
  {
    if w.items == [] || w.cut == 0 {
    } else {
      var x := w.items[0];
      assert GoodRecord(c, x);
      GroupHead(c, w.items);
      var n := 1 + |c.enc(x)|;
      if w.cut < n {
        assert Bytes(c, w) == [LF] + c.enc(x)[..w.cut - 1];
        LoadCutRecord(c, x, w.cut - 1);
        assert Group(c, w.items)[w.cut] == Group(c, w.items)[..n][w.cut];
      } else {
        LoadWriteStep(c, w);
      }
    }
  }

  /** An append that got past its first record is that record and an append of the others. */
  lemma WriteHead<T>(c: Codec<T>, w: Write<T>, tail: Write<T>)
    requires Fits(c, w) && w.items != [] && w.cut >= 1 + |c.enc(w.items[0])|
    requires tail == Write(w.items[1..], w.cut - 1 - |c.enc(w.items[0])|)
    ensures Fits(c, tail)
    ensures Bytes(c, w) == ([LF] + c.enc(w.items[0])) + Bytes(c, tail)
    ensures Kept(c, w) == [w.items[0]] + Kept(c, tail)
    ensures OnBoundary(c, w) <==> OnBoundary(c, tail)
  {
    var n := 1 + |c.enc(w.items[0])|;
    GroupHead(c, w.items);
    var g := Group(c, w.items);
    assert Bytes(c, w) == g[..n] + g[n..][..w.cut - n];
    assert w.cut < |g| ==> g[w.cut] == g[n..][w.cut - n];
  }

  lemma {:induction false} LoadWriteStep<T(!new)>(c: Codec<T>, w: Write<T>)
    requires Good(c) && Fits(c, w) && w.items != [] && w.cut >= 1 + |c.enc(w.items[0])|
    ensures Load(c, Bytes(c, w)) == if OnBoundary(c, w) then Some(Kept(c, w)) else None
    ensures CR !in Bytes(c, w)
    ensures Bytes(c, w) != [] && Bytes(c, w)[0] == LF
    decreases |w.items|, 0
  {
    var x := w.items[0];
    var tail := Write(w.items[1..], w.cut - 1 - |c.enc(x)|);
    WriteHead(c, w, tail);
    LoadWrite(c, tail);
    var first, others := [LF] + c.enc(x), Bytes(c, tail);
    assert GoodRecord(c, x);
    LoadCutRecord(c, x, |c.enc(x)|);
    assert c.enc(x)[..|c.enc(x)|] == c.enc(x);
    LoadConcat(c, first, others);
  }

  lemma LoadRecord<T>(c: Codec<T>, line: seq<Byte>)
    requires LF !in line
    ensures Load(c, [LF] + line) == if line == [] then Some([]) else ReadLine(c, line)
  {
    var f := [LF] + line;
    assert f[1..] == line;
    LoadLeadingFeed(c, f);
  }

  // ---------------------------------------------------------------- a whole file

  predicate FitsAll<T>(c: Codec<T>, log: seq<Write<T>>) {
    forall i :: 0 <= i < |log| ==> Fits(c, log[i])
  }

  /** The file after the appends of `log`, oldest first. */
  function File<T>(c: Codec<T>, log: seq<Write<T>>): seq<Byte>
    requires FitsAll(c, log)
  {
    if log == [] then [] else File(c, log[..|log| - 1]) + Bytes(c, log[|log| - 1])
  }

  /** The items whose record was written whole, in order. */
  function Recovered<T>(c: Codec<T>, log: seq<Write<T>>): seq<T> {
    if log == [] then [] else Recovered(c, log[..|log| - 1]) + Kept(c, log[|log| - 1])
  }

  /** No append of `log` stopped inside a multi-byte character. */
  predicate Readable<T>(c: Codec<T>, log: seq<Write<T>>) {
    forall i :: 0 <= i < |log| ==> OnBoundary(c, log[i])
  }

  /**
   * For any sequence of group appends, each cut anywhere: opening the file succeeds exactly when no
   * append stopped inside a multi-byte character, and then returns exactly the items whose record
   * was written whole, in order. A tear costs only records of its own group.
   */
  lemma {:induction false} TornWrites<T(!new)>(c: Codec<T>, log: seq<Write<T>>)
    requires Good(c) && FitsAll(c, log)
    ensures Load(c, File(c, log)) == if Readable(c, log) then Some(Recovered(c, log)) else None
    ensures CR !in File(c, log)
  {
    if log != [] {
      var init, last := log[..|log| - 1], log[|log| - 1];
      assert log == init + [last];
      hide Load, Good, Fits, OnBoundary, Group, Kept, Readable, Recovered, File;
      SplitLog(c, init, last);
      TornWrites(c, init);
      LoadWrite(c, last);
      LoadConcat(c, File(c, init), Bytes(c, last));
    }
  }

  lemma SplitLog<T>(c: Codec<T>, log: seq<Write<T>>, w: Write<T>)
    requires FitsAll(c, log + [w])
    ensures FitsAll(c, log) && Fits(c, w)
    ensures File(c, log + [w]) == File(c, log) + Bytes(c, w)
    ensures Recovered(c, log + [w]) == Recovered(c, log) + Kept(c, w)
    ensures Readable(c, log + [w]) <==> Readable(c, log) && OnBoundary(c, w)
  {
    var all := log + [w];
    hide Group, Kept, OnBoundary, Fits;
    assert all[..|log|] == log && all[|log|] == w;
    assert forall i :: 0 <= i < |log| ==> all[i] == log[i];
  }

  lemma RecoveredAppend<T>(c: Codec<T>, log: seq<Write<T>>, w: Write<T>)
    ensures Recovered(c, log + [w]) == Recovered(c, log) + Kept(c, w)
  {
    assert (log + [w])[..|log|] == log;
  }

  /**
   * The limit of the tear tolerance: an append of the record `["é"]` stopped between the two bytes of
   * the letter makes `Slot::open` fail, and takes the complete append behind it along.
   */
  lemma TornCharacter<T(!new)>(c: Codec<T>, x: T, y: T)
    requires Good(c) && c.enc(x) == [0x5B, 0x22, 0xC3, 0xA9, 0x22, 0x5D]
    ensures var log := [Write([x], 4), Write([y], |Group(c, [y])|)];
            && FitsAll(c, log)
            && Recovered(c, log) == [y]
            && Load(c, File(c, log)) == None
  {
    var torn, complete := Write([x], 4), Write([y], |Group(c, [y])|);
    GroupHead(c, [x]);
    assert Group(c, [x])[4] == Group(c, [x])[..7][4] == 0xA9;
    CompleteAppend(c, [y]);
    assert [torn, complete][..1] == [torn] && [torn][..0] == [];
    assert Kept(c, torn) == [];
    assert Recovered(c, [torn]) == [];
    TornWrites(c, [torn, complete]);
    assert !OnBoundary(c, [torn, complete][0]);
  }

  /** An instance: after a torn `["é"]` nothing is read, not even the `[0]` appended completely behind it. */
  lemma TornAccent()
    ensures var c := AccentCodec();
            var log := [Write([true], 4), Write([false], |Group(c, [false])|)];
            FitsAll(c, log) && Recovered(c, log) == [false] && Load(c, File(c, log)) == None
  {
    SomeCodecIsGood();
    hide Good, Load, File, Recovered, FitsAll;
    TornCharacter(AccentCodec(), true, false);
  }
}
