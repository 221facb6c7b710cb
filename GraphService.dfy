/**
 * The graph service over a repository: pass-through operations and the
 * bootstrap loader, which clears the store and upserts one edge per
 * comma-separated row.
 */
module GraphService {

  import opened Wrappers
  import opened Graph
  import opened InMemoryGraphRepository

  // ---------------------------------------------------------------------------
  // Java's `line.split(",")`
  // ---------------------------------------------------------------------------

  /** Splits at every comma, keeping every field, empty ones included. */
  function SplitAll(s: string): (parts: seq<string>)
    ensures |parts| >= 1
    ensures forall i :: 0 <= i < |parts| ==> ',' !in parts[i]
  {
    if s == [] then [""]
    else
      var rest := SplitAll(s[1..]);
      if s[0] == ',' then [""] + rest else [[s[0]] + rest[0]] + rest[1..]
  }

  /** Puts the fields back together with a comma between each two. */
  function Join(parts: seq<string>): string
    requires |parts| >= 1
  {
    if |parts| == 1 then parts[0] else parts[0] + "," + Join(parts[1..])
  }

  /** Splitting at every comma loses nothing: joining the fields gives the line back. */
  lemma {:induction false} JoinSplitAll(s: string)
    ensures Join(SplitAll(s)) == s
  {
    if s != [] {
      JoinSplitAll(s[1..]);
      var rest := SplitAll(s[1..]);
      if s[0] == ',' {
        assert ([""] + rest)[1..] == rest;
        assert s == [s[0]] + s[1..];
      } else if |rest| == 1 {
        assert s == [s[0]] + rest[0];
      } else {
        var parts := [[s[0]] + rest[0]] + rest[1..];
        assert parts[1..] == rest[1..];
        assert Join(rest) == rest[0] + "," + Join(rest[1..]);
        assert s == [s[0]] + s[1..];
      }
    }
  }

  /** Drops the empty fields at the end, as `split` does. */
  function DropTrailingEmpty(p: seq<string>): (r: seq<string>)
    ensures |r| <= |p| && r == p[..|r|]
    ensures r == [] || r[|r| - 1] != ""
    ensures forall i :: |r| <= i < |p| ==> p[i] == ""
  {
    if p == [] then []
    else if p[|p| - 1] == "" then DropTrailingEmpty(p[..|p| - 1])
    else p
  }

  /**
   * `line.split(",")`: a line without a comma is its own single field;
   * otherwise the fields between commas, minus the empty ones at the end.
   */
  function SplitOnComma(s: string): (parts: seq<string>)
    ensures ',' !in s ==> parts == [s]
    ensures |parts| <= |SplitAll(s)| && parts == SplitAll(s)[..|parts|]
    ensures forall i :: |parts| <= i < |SplitAll(s)| ==> SplitAll(s)[i] == ""
    ensures ',' in s ==> parts == [] || parts[|parts| - 1] != ""
    ensures forall i :: 0 <= i < |parts| ==> ',' !in parts[i]
  {
    if ',' !in s then NoCommaOneField(s); [s] else DropTrailingEmpty(SplitAll(s))
  }

  lemma {:induction false} NoCommaOneField(s: string)
    requires ',' !in s
    ensures SplitAll(s) == [s]
  {
    if s != [] {
      NoCommaOneField(s[1..]);
      assert s == [s[0]] + s[1..];
    }
  }

  // ---------------------------------------------------------------------------
  // The bootstrap rows
  // ---------------------------------------------------------------------------

  datatype LoadResult = LoadResult(graph: Snapshot, loaded: bool)

  /**
   * What the loader's loop does to `g` with the remaining lines: rows of
   * fewer than three fields are skipped; a weight that does not parse ends
   * the load (the exception is caught outside the loop); a row from a user to
   * itself adds the vertex and then ends the load (the simple graph refuses
   * the loop); any other row upserts `parts[0] -> parts[1]`.
   */
  function ApplyRows(g: Snapshot, lines: seq<string>, parse: string -> Option<real>): (r: LoadResult)
    ensures lines == [] ==> r == LoadResult(g, true)
    ensures g.vertices <= r.graph.vertices && g.w.Keys <= r.graph.w.Keys
    decreases |lines|
  {
    if lines == [] then LoadResult(g, true)
    else
      var parts := SplitOnComma(lines[0]);
      if |parts| < 3 then ApplyRows(g, lines[1..], parse)
      else
        match parse(parts[2])
        case None => LoadResult(g, false)
        case Some(x) =>
          if parts[0] == parts[1] then LoadResult(AddVertex(g, parts[0]), false)
          else ApplyRows(Upsert(g, parts[0], parts[1], x), lines[1..], parse)
  }

  /** The loader's step at line `i`, case by case. */
  lemma ApplyRowsAt(g: Snapshot, lines: seq<string>, i: nat, parse: string -> Option<real>)
    requires i < |lines|
    ensures var parts := SplitOnComma(lines[i]); var r := ApplyRows(g, lines[i..], parse);
      && (|parts| < 3 ==> r == ApplyRows(g, lines[i + 1..], parse))
      && (|parts| >= 3 && parse(parts[2]).None? ==> r == LoadResult(g, false))
      && (|parts| >= 3 && parse(parts[2]).Some? && parts[0] == parts[1] ==>
            r == LoadResult(AddVertex(g, parts[0]), false))
      && (|parts| >= 3 && parse(parts[2]).Some? && parts[0] != parts[1] ==>
            r == ApplyRows(Upsert(g, parts[0], parts[1], parse(parts[2]).value), lines[i + 1..], parse))
  {
    assert lines[i..][0] == lines[i] && lines[i..][1..] == lines[i + 1..];
  }

  /** The whole load: always from the empty graph, whatever the store held. */
  function Load(lines: seq<string>, parse: string -> Option<real>): LoadResult
  {
    ApplyRows(Empty, lines, parse)
  }

  /** Rows run in order: the second part starts where the first one ended, if it did not abort. */
  lemma {:induction false} ApplyRowsAppend(g: Snapshot, a: seq<string>, b: seq<string>, parse: string -> Option<real>)
    ensures var first := ApplyRows(g, a, parse);
      ApplyRows(g, a + b, parse) == if first.loaded then ApplyRows(first.graph, b, parse) else first
    decreases |a|
  {
    if a != [] {
      assert (a + b)[0] == a[0];
      assert (a + b)[1..] == a[1..] + b;
      var parts := SplitOnComma(a[0]);
      if |parts| < 3 {
        ApplyRowsAppend(g, a[1..], b, parse);
      } else if parse(parts[2]).Some? && parts[0] != parts[1] {
        ApplyRowsAppend(Upsert(g, parts[0], parts[1], parse(parts[2]).value), a[1..], b, parse);
      }
    } else {
      assert a + b == b;
    }
  }

  /** A kept row that names the pair (a, b). */
  predicate NamesPair(line: string, a: User, b: User)
  {
    var parts := SplitOnComma(line);
    |parts| >= 3 && parts[0] == a && parts[1] == b
  }

  /** Rows that never name (a, b) leave the weight of (a, b) alone. */
  lemma {:induction false} OtherRowsKeepWeight(g: Snapshot, lines: seq<string>, parse: string -> Option<real>, a: User, b: User)
    requires forall i :: 0 <= i < |lines| ==> !NamesPair(lines[i], a, b)
    ensures Weight(ApplyRows(g, lines, parse).graph, a, b) == Weight(g, a, b)
    decreases |lines|
  {
    if lines != [] {
      assert !NamesPair(lines[0], a, b);
      assert forall i :: 0 <= i < |lines[1..]| ==> lines[1..][i] == lines[i + 1];
      var parts := SplitOnComma(lines[0]);
      if |parts| < 3 {
        OtherRowsKeepWeight(g, lines[1..], parse, a, b);
      } else if parse(parts[2]).Some? && parts[0] != parts[1] {
        OtherRowsKeepWeight(Upsert(g, parts[0], parts[1], parse(parts[2]).value), lines[1..], parse, a, b);
      }
    }
  }

  /**
   * A repeated pair ends with the weight of its last row: if the load
   * completes, and no row after `line` names (a, b), then (a, b) weighs what
   * `line` says.
   */
  lemma LastRowWins(pre: seq<string>, line: string, post: seq<string>, parse: string -> Option<real>)
    requires |SplitOnComma(line)| >= 3
    requires var parts := SplitOnComma(line);
      forall i :: 0 <= i < |post| ==> !NamesPair(post[i], parts[0], parts[1])
    requires Load(pre + [line] + post, parse).loaded
    ensures var parts := SplitOnComma(line);
      parse(parts[2]).Some? &&
      Weight(Load(pre + [line] + post, parse).graph, parts[0], parts[1]) == parse(parts[2]).value
  {
    var parts := SplitOnComma(line);
    var first := ApplyRows(Empty, pre, parse);
    ApplyRowsAppend(Empty, pre, [line] + post, parse);
    assert pre + [line] + post == pre + ([line] + post);
    assert first.loaded;
    ApplyRowsAppend(first.graph, [line], post, parse);
    var second := ApplyRows(first.graph, [line], parse);
    assert [line][1..] == [];
    assert second.loaded;
    assert second.graph == Upsert(first.graph, parts[0], parts[1], parse(parts[2]).value);
    OtherRowsKeepWeight(second.graph, post, parse, parts[0], parts[1]);
  }

  /**
   * A weight that does not parse aborts the rest of the load but keeps the
   * rows already applied.
   */
  lemma ParseFailureAborts(lines: seq<string>, parse: string -> Option<real>, i: nat)
    requires i < |lines|
    requires var parts := SplitOnComma(lines[i]); |parts| >= 3 && parse(parts[2]).None?
    requires Load(lines[..i], parse).loaded
    ensures Load(lines, parse) == LoadResult(Load(lines[..i], parse).graph, false)
  {
    assert lines == lines[..i] + lines[i..];
    ApplyRowsAppend(Empty, lines[..i], lines[i..], parse);
    assert lines[i..][0] == lines[i];
  }

  /** The rows of at least three fields. */
  function KeptRows(lines: seq<string>): (r: seq<string>)
    ensures forall i :: 0 <= i < |r| ==> |SplitOnComma(r[i])| >= 3
  {
    if lines == [] then []
    else if |SplitOnComma(lines[0])| < 3 then KeptRows(lines[1..])
    else [lines[0]] + KeptRows(lines[1..])
  }

  /** Rows of fewer than three fields make no difference to the load. */
  lemma {:induction false} ShortRowsIgnored(g: Snapshot, lines: seq<string>, parse: string -> Option<real>)
    ensures ApplyRows(g, lines, parse) == ApplyRows(g, KeptRows(lines), parse)
    decreases |lines|
  {
    if lines != [] {
      var parts := SplitOnComma(lines[0]);
      if |parts| < 3 {
        ShortRowsIgnored(g, lines[1..], parse);
      } else {
        var kept := [lines[0]] + KeptRows(lines[1..]);
        assert kept[0] == lines[0] && kept[1..] == KeptRows(lines[1..]);
        if parse(parts[2]).Some? && parts[0] != parts[1] {
          ShortRowsIgnored(Upsert(g, parts[0], parts[1], parse(parts[2]).value), lines[1..], parse);
        }
      }
    }
  }

  /** Every graph the rows produce from a valid graph is valid. */
  lemma {:induction false} ApplyRowsValid(g: Snapshot, lines: seq<string>, parse: string -> Option<real>)
    requires Graph.Valid(g)
    ensures Graph.Valid(ApplyRows(g, lines, parse).graph)
    decreases |lines|
  {
    if lines != [] {
      var parts := SplitOnComma(lines[0]);
      if |parts| < 3 {
        ApplyRowsValid(g, lines[1..], parse);
      } else if parse(parts[2]).Some? && parts[0] != parts[1] {
        UpsertSetsWeight(g, parts[0], parts[1], parse(parts[2]).value);
        ApplyRowsValid(Upsert(g, parts[0], parts[1], parse(parts[2]).value), lines[1..], parse);
      }
    }
  }

  // ---------------------------------------------------------------------------
  // The service
  // ---------------------------------------------------------------------------

  class GraphService {
    const graphRepository: Repository

    constructor (repository: Repository)
      ensures graphRepository == repository
    {
      graphRepository := repository;
    }

    method GetGraph() returns (data: seq<EdgeRecord>)
      requires graphRepository.Valid()
      ensures |data| == |graphRepository.w|
      ensures forall i :: 0 <= i < |data| ==>
        Key(data[i]) in graphRepository.w && graphRepository.w[Key(data[i])] == data[i].weight
      ensures forall i, j :: 0 <= i < j < |data| ==> Key(data[i]) != Key(data[j])
      ensures forall e :: e in graphRepository.w ==> exists i :: 0 <= i < |data| && Key(data[i]) == e
    {
      data := graphRepository.GetGraphData();
    }

    method AddOrUpdateEdge(from: User, to: User, weight: real) returns (ok: bool)
      requires graphRepository.Valid()
      modifies graphRepository
      ensures graphRepository.Valid()
      ensures ok <==> from != to
      ensures ok ==> graphRepository.Contents() == Upsert(old(graphRepository.Contents()), from, to, weight)
      ensures !ok ==> graphRepository.Contents() == AddVertex(old(graphRepository.Contents()), from)
    {
      ok := graphRepository.AddOrUpdateEdge(from, to, weight);
    }

    method GetFollowing(user: User) returns (s: set<User>)
      requires graphRepository.Valid()
      ensures forall b :: b in s <==> (user, b) in graphRepository.w
      ensures s == Following(graphRepository.Contents(), user)
    {
      s := graphRepository.GetFollowing(user);
    }

    method GetFollowers(user: User) returns (s: set<User>)
      requires graphRepository.Valid()
      ensures forall a :: a in s <==> (a, user) in graphRepository.w
      ensures s == Followers(graphRepository.Contents(), user)
    {
      s := graphRepository.GetFollowers(user);
    }

    method AddUser(user: User)
      requires graphRepository.Valid()
      modifies graphRepository
      ensures graphRepository.Valid()
      ensures graphRepository.Contents() == AddVertex(old(graphRepository.Contents()), user)
    {
      graphRepository.AddUser(user);
    }

    /** The weight primitive the weight service reads: the weight, or 0.0 without an edge. */
    method GetConnectionWeight(from: User, to: User) returns (x: real)
      requires graphRepository.Valid()
      ensures x == Weight(graphRepository.Contents(), from, to)
    {
      x := graphRepository.GetConnectionWeight(from, to);
    }

    /** The weight primitive the weight service writes: an upsert. */
    method UpdateConnectionWeight(from: User, to: User, weight: real) returns (ok: bool)
      requires graphRepository.Valid()
      modifies graphRepository
      ensures graphRepository.Valid()
      ensures ok <==> from != to
      ensures ok ==> graphRepository.Contents() == Upsert(old(graphRepository.Contents()), from, to, weight)
      ensures !ok ==> graphRepository.Contents() == AddVertex(old(graphRepository.Contents()), from)
    {
      ok := graphRepository.UpdateConnectionWeight(from, to, weight);
    }

    /** The adjacency primitive the weight service sweeps. */
    method GetAllConnections() returns (adj: map<User, set<User>>)
      requires graphRepository.Valid()
      ensures adj.Keys == graphRepository.vertices
      ensures forall u :: u in adj ==> adj[u] == Following(graphRepository.Contents(), u)
    {
      adj := graphRepository.GetAllConnections();
    }

    /**
     * Clears the store, then applies the rows in order; `loaded` is false when
     * a row threw and the rest of the file was skipped.
     */
    method LoadGraphFromFile(lines: seq<string>, parse: string -> Option<real>) returns (loaded: bool)
      requires graphRepository.Valid()
      modifies graphRepository
      ensures graphRepository.Valid()
      ensures graphRepository.Contents() == Load(lines, parse).graph
      ensures loaded == Load(lines, parse).loaded
    {
      graphRepository.Clear();
      var i := 0;
      while i < |lines|
        invariant 0 <= i <= |lines| && graphRepository.Valid()
        invariant ApplyRows(graphRepository.Contents(), lines[i..], parse) == Load(lines, parse)
      {
        ApplyRowsAt(graphRepository.Contents(), lines, i, parse);
        var parts := SplitOnComma(lines[i]);
        if |parts| >= 3 {
          var from := parts[0];
          var to := parts[1];
          var weight := parse(parts[2]);
          if weight.None? {
            return false;
          }
          var ok := AddOrUpdateEdge(from, to, weight.value);
          if !ok {
            return false;
          }
        }
        i := i + 1;
      }
      loaded := true;
    }
  }

  /** One character in front of a line: a comma opens a new field, anything else extends the first. */
  lemma SplitAllCons(c: char, s: string)
    ensures SplitAll([c] + s) ==
      if c == ',' then [""] + SplitAll(s) else [[c] + SplitAll(s)[0]] + SplitAll(s)[1..]
  {
    assert ([c] + s)[0] == c && ([c] + s)[1..] == s;
  }

  /** A character other than a comma extends the first field. */
  lemma SplitAllExtend(c: char, s: string, first: string, rest: seq<string>)
    requires c != ',' && SplitAll(s) == [first] + rest
    ensures SplitAll([c] + s) == [[c] + first] + rest
  {
    SplitAllCons(c, s);
    assert SplitAll(s)[0] == first && SplitAll(s)[1..] == rest;
  }

  /** A comma-free field, a comma and a line: the field comes first, then the line's fields. */
  lemma {:induction false} SplitAllField(field: string, s: string)
    requires ',' !in field
    ensures SplitAll(field + "," + s) == [field] + SplitAll(s)
  {
    if field == [] {
      SplitAllCons(',', s);
      assert field + "," + s == [','] + s;
    } else {
      SplitAllField(field[1..], s);
      assert field + "," + s == [field[0]] + (field[1..] + "," + s);
      SplitAllExtend(field[0], field[1..] + "," + s, field[1..], SplitAll(s));
      assert [field[0]] + field[1..] == field;
    }
  }

  lemma SplitAllTwoFields()
    ensures SplitAll("2.5,x") == ["2.5", "x"]
  {
    NoCommaOneField("x");
    SplitAllField("2.5", "x");
    assert "2.5" + "," + "x" == "2.5,x";
  }

  lemma SplitAllThreeFields()
    ensures SplitAll("B,2.5,x") == ["B", "2.5", "x"]
  {
    SplitAllTwoFields();
    SplitAllField("B", "2.5,x");
    assert "B" + "," + "2.5,x" == "B,2.5,x";
  }

  lemma SplitAllFourFields()
    ensures SplitAll("A,B,2.5,x") == ["A", "B", "2.5", "x"]
  {
    SplitAllThreeFields();
    SplitAllField("A", "B,2.5,x");
    assert "A" + "," + "B,2.5,x" == "A,B,2.5,x";
  }

  /** Extra fields after the weight are kept by `split` and ignored by the loader. */
  lemma SplitKeepsExtraFields()
    ensures SplitOnComma("A,B,2.5,x") == ["A", "B", "2.5", "x"]
  {
    SplitAllFourFields();
    assert "A,B,2.5,x"[1] == ',';
    var p := ["A", "B", "2.5", "x"];
    assert p[|p| - 1] != "";
  }

  lemma SplitAllCommas()
    ensures SplitAll(",,") == ["", "", ""]
  {
    SplitAllCons(',', "");
    assert SplitAll(",") == ["", ""];
    SplitAllCons(',', ",");
  }

  lemma SplitAllTrailingCommas()
    ensures SplitAll("A,B,,") == ["A", "B", "", ""]
  {
    SplitAllCommas();
    SplitAllField("B", ",");
    assert "B" + "," + "," == "B,,";
    SplitAllField("A", "B,,");
    assert "A" + "," + "B,," == "A,B,,";
  }

  /** Trailing empty fields are dropped, so "A,B,," has two fields and is skipped. */
  lemma SplitDropsTrailingEmpty()
    ensures SplitOnComma("A,B,,") == ["A", "B"]
  {
    SplitAllTrailingCommas();
    assert "A,B,,"[1] == ',';
    var p := ["A", "B", "", ""];
    assert p[..|p| - 1] == ["A", "B", ""];
    assert ["A", "B", ""][..2] == ["A", "B"];
  }
}
