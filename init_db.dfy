/** The string handling inside `execute_schema` of init_db.py: the server
    URI it first connects to (the configured URI without its database
    name and query string), and the statements it runs from the schema
    script, one `conn.execute` per non-blank piece between semicolons. */
module InitDb {
  import opened Text
  import opened DbModels

  /** The `DB_URI` used when the environment sets none. */
  const DefaultDbUri: string := "mysql+mysqlconnector://root:@localhost/stock-market-analysis"

  /** `DB_URI.rsplit("/", 1)[0]`, then cut at the first `?` when there is
      one. */
  function ServerUri(uri: string): (r: string)
    ensures |r| <= |uri| && r == uri[..|r|]
    ensures '?' !in r
    ensures '/' !in uri ==> ('?' !in uri <==> r == uri)
    ensures '/' in uri ==> |r| < |uri|
    ensures |r| < |uri| ==> uri[|r|] == '?' || (uri[|r|] == '/' && '/' !in uri[|r| + 1..])
    ensures |r| < |uri| && uri[|r|] == '?' && '/' in uri ==> '/' in uri[|r| + 1..]
  {
    var base := BeforeLast(uri, '/');
    if '?' in base then
      SplitHead(base, '?');
      var r := Split(base, '?')[0];
      assert |r| < |base|;
      assert '/' in uri ==> uri[|r| + 1..][|base| - |r| - 1] == uri[|base|] == '/';
      r
    else base
  }

  /** With no query string the cut is exactly at the last `/`: the server
      URI is followed by that slash and the database name. */
  lemma ServerUriDropsDatabaseName(uri: string)
    requires '/' in uri && '?' !in uri
    ensures var r := ServerUri(uri);
      uri == r + "/" + uri[|r| + 1..] && '/' !in uri[|r| + 1..]
  {
    var r := ServerUri(uri);
    assert '?' !in BeforeLast(uri, '/');
    assert uri == uri[..|r|] + [uri[|r|]] + uri[|r| + 1..];
  }

  /** A URI made of a server part with no `?`, a `/`, and a rest with no
      further `/` (a database name, possibly followed by a query string)
      connects to the server part. */
  lemma ServerUriOfParts(server: string, rest: string)
    requires '/' !in rest && '?' !in server
    ensures ServerUri(server + "/" + rest) == server
  {
    var u := server + "/" + rest;
    assert u[|server|] == '/';
    var b := BeforeLast(u, '/');
    forall k | |b| < k < |u|
      ensures u[k] != '/'
    {
      assert u[k] == u[|b| + 1..][k - |b| - 1];
    }
    forall k | |server| < k < |u|
      ensures u[k] != '/'
    {
      assert u[k] == rest[k - |server| - 1];
    }
    assert |b| == |server|;
    assert b == u[..|server|] == server;
  }

  /** The query string after the database name is dropped with it. */
  lemma ServerUriDropsQuery(server: string, database: string, query: string)
    requires '?' !in server && '/' !in database && '/' !in query
    ensures ServerUri(server + "/" + database + "?" + query) == server
  {
    var rest := database + "?" + query;
    assert server + "/" + database + "?" + query == server + "/" + rest;
    forall k | 0 <= k < |rest|
      ensures rest[k] != '/'
    {
      if k < |database| {
        assert rest[k] == database[k];
      } else if k > |database| {
        assert rest[k] == query[k - |database| - 1];
      }
    }
    ServerUriOfParts(server, rest);
  }

  /** The default URI loses only its database name. */
  lemma DefaultServerUri()
    ensures ServerUri(DefaultDbUri) == "mysql+mysqlconnector://root:@localhost"
  {
    DefaultUriSplits();
    DefaultServerPartHasNoQuery();
    ServerUriOfParts("mysql+mysqlconnector://root:@localhost", "stock-market-analysis");
  }

  /** The default URI is its server part, a `/` and the database name,
      which has no `/`. */
  lemma DefaultUriSplits()
    ensures DefaultDbUri == "mysql+mysqlconnector://root:@localhost" + "/" + "stock-market-analysis"
    ensures '/' !in "stock-market-analysis"
  {
  }

  /** The server part of the default URI has no query string. */
  lemma DefaultServerPartHasNoQuery()
    ensures '?' !in "mysql+mysqlconnector://root:@localhost"
  {
  }

  /** The pieces that are not blank, stripped, in their order. */
  function Kept(pieces: seq<string>): (r: seq<string>)
  {
    if pieces == [] then []
    else
      var last := Strip(pieces[|pieces| - 1]);
      Kept(pieces[..|pieces| - 1]) + (if last == "" then [] else [last])
  }

  /** The statements `execute_schema` runs from a schema script. */
  function Statements(script: string): seq<string> {
    Kept(Split(script, ';'))
  }

  /** No statement that runs is blank, has whitespace at either end, or
      holds a `;`. */
  lemma StatementsWellFormed(script: string)
    ensures var r := Statements(script);
      forall i :: 0 <= i < |r| ==> r[i] != "" && Stripped(r[i]) && ';' !in r[i]
  {
    var pieces := Split(script, ';');
    KeptAreStatements(pieces);
    KeptHasNoSeparator(pieces, ';');
  }

  /** Every kept piece is non-blank and has no whitespace at either end. */
  lemma {:induction false} KeptAreStatements(pieces: seq<string>)
    ensures forall i :: 0 <= i < |Kept(pieces)| ==> Kept(pieces)[i] != "" && Stripped(Kept(pieces)[i])
  {
    if pieces != [] {
      KeptAreStatements(pieces[..|pieces| - 1]);
    }
  }

  /** Stripping never adds a character, so separator-free pieces give
      separator-free statements. */
  lemma {:induction false} KeptHasNoSeparator(pieces: seq<string>, sep: char)
    requires forall i :: 0 <= i < |pieces| ==> sep !in pieces[i]
    ensures forall i :: 0 <= i < |Kept(pieces)| ==> sep !in Kept(pieces)[i]
  {
    if pieces != [] {
      KeptHasNoSeparator(pieces[..|pieces| - 1], sep);
      StripKeepsOnly(pieces[|pieces| - 1], sep);
    }
  }

  /** Pieces that are already non-blank and stripped are kept as they are. */
  lemma {:induction false} KeptOfStatements(stmts: seq<string>)
    requires forall i :: 0 <= i < |stmts| ==> stmts[i] != "" && Stripped(stmts[i])
    ensures Kept(stmts) == stmts
  {
    if stmts != [] {
      var init, last := stmts[..|stmts| - 1], stmts[|stmts| - 1];
      assert forall i :: 0 <= i < |init| ==> init[i] == stmts[i];
      KeptOfStatements(init);
      StripOfStripped(last);
      assert Kept(stmts) == Kept(init) + [last];
      assert init + [last] == stmts;
    }
  }

  /** A script written as its statements joined by `;` runs exactly those
      statements, in order. */
  lemma StatementsRoundTrip(stmts: seq<string>)
    requires forall i :: 0 <= i < |stmts| ==> stmts[i] != "" && Stripped(stmts[i]) && ';' !in stmts[i]
    ensures Statements(Join(stmts, ';')) == stmts
  {
    if stmts == [] {
      assert Split("", ';') == [""];
      StripOfStripped("");
      assert Kept([""]) == Kept([]) + [];
    } else {
      SplitJoin(stmts, ';');
      KeptOfStatements(stmts);
    }
  }

  /** A trailing semicolon adds no statement. */
  lemma TrailingSeparatorIgnored(stmts: seq<string>)
    requires forall i :: 0 <= i < |stmts| ==> stmts[i] != "" && Stripped(stmts[i]) && ';' !in stmts[i]
    ensures Statements(Join(stmts + [""], ';')) == stmts
  {
    var parts := stmts + [""];
    BlankHasNoSeparator(stmts, ';');
    SplitJoin(parts, ';');
    KeptDropsBlankLast(stmts);
  }

  /** Adding a blank piece adds no separator. */
  lemma BlankHasNoSeparator(pieces: seq<string>, sep: char)
    requires forall i :: 0 <= i < |pieces| ==> sep !in pieces[i]
    ensures forall i :: 0 <= i < |pieces + [""]| ==> sep !in (pieces + [""])[i]
  {
    var parts := pieces + [""];
    forall i | 0 <= i < |parts|
      ensures sep !in parts[i]
    {
      if i < |pieces| {
        assert parts[i] == pieces[i];
      }
    }
  }

  /** A blank last piece adds nothing to the statements before it. */
  lemma KeptDropsBlankLast(stmts: seq<string>)
    requires forall i :: 0 <= i < |stmts| ==> stmts[i] != "" && Stripped(stmts[i])
    ensures Kept(stmts + [""]) == stmts
  {
    var parts := stmts + [""];
    KeptOfStatements(stmts);
    assert Strip(parts[|parts| - 1]) == "";
    assert parts[..|parts| - 1] == stmts;
    assert Kept(parts) == Kept(stmts) + [];
  }

  /** `xs` is an initial segment of `ys`. */
  predicate IsPrefix(xs: seq<string>, ys: seq<string>) {
    |xs| <= |ys| && xs == ys[..|xs|]
  }

  /** The statement loop of `execute_schema`: each piece of the script is
      stripped, and a non-blank one is handed to `execute`; the first
      statement the connection refuses raises, which ends the loop. The
      result lists the statements that ran and the refused one, if any. */
  method ExecuteStatements(script: string, execute: string -> bool) returns (ran: seq<string>, refused: Option<string>)
    ensures forall i :: 0 <= i < |ran| ==> execute(ran[i])
    ensures refused.None? ==> ran == Statements(script)
    ensures refused.Some? ==> !execute(refused.value) && IsPrefix(ran + [refused.value], Statements(script))
  {
    var pieces := Split(script, ';');
    ran, refused := [], None;
    var i := 0;
    while i < |pieces|
      invariant 0 <= i <= |pieces|
      invariant ran == Kept(pieces[..i])
      invariant AllAccepted(ran, execute)
    {
      var stmt := Strip(pieces[i]);
      KeptStep(pieces, i);
      if stmt != "" {
        if !execute(stmt) {
          refused := Some(stmt);
          KeptPrefix(pieces, i + 1);
          AllAcceptedMeans(ran, execute);
          return;
        }
        ran := ran + [stmt];
        assert ran == Kept(pieces[..i + 1]);
      } else {
        assert ran == Kept(pieces[..i + 1]);
      }
      i := i + 1;
    }
    PrefixOfAll(pieces);
    AllAcceptedMeans(ran, execute);
  }

  /** `execute` accepted every statement of `xs`. */
  predicate AllAccepted(xs: seq<string>, execute: string -> bool) {
    xs == [] || (AllAccepted(xs[..|xs| - 1], execute) && execute(xs[|xs| - 1]))
  }

  lemma {:induction false} AllAcceptedMeans(xs: seq<string>, execute: string -> bool)
    requires AllAccepted(xs, execute)
    ensures forall i :: 0 <= i < |xs| ==> execute(xs[i])
  {
    if xs != [] {
      var init := xs[..|xs| - 1];
      AllAcceptedMeans(init, execute);
      assert forall i :: 0 <= i < |init| ==> xs[i] == init[i];
    }
  }

  /** The prefix of a sequence as long as the sequence is the sequence. */
  lemma PrefixOfAll(pieces: seq<string>)
    ensures pieces[..|pieces|] == pieces
  {
  }

  /** One more piece adds its stripped text when that is not blank. */
  lemma KeptStep(pieces: seq<string>, i: nat)
    requires i < |pieces|
    ensures var stmt := Strip(pieces[i]);
      Kept(pieces[..i + 1]) == Kept(pieces[..i]) + (if stmt == "" then [] else [stmt])
  {
    assert pieces[..i + 1][..i] == pieces[..i];
  }

  /** Appending to a sequence keeps its prefixes. */
  lemma PrefixOfLonger(xs: seq<string>, ys: seq<string>, zs: seq<string>)
    requires IsPrefix(xs, ys)
    ensures IsPrefix(xs, ys + zs)
  {
    assert (ys + zs)[..|xs|] == ys[..|xs|];
  }

  /** The statements of a prefix of the pieces come first among those of
      all the pieces. */
  lemma {:induction false} KeptPrefix(pieces: seq<string>, n: nat)
    requires n <= |pieces|
    ensures IsPrefix(Kept(pieces[..n]), Kept(pieces))
    decreases |pieces|
  {
    if n == |pieces| {
      assert pieces[..n] == pieces;
    } else {
      var init := pieces[..|pieces| - 1];
      KeptPrefix(init, n);
      assert init[..n] == pieces[..n];
      var last := Strip(pieces[|pieces| - 1]);
      PrefixOfLonger(Kept(pieces[..n]), Kept(init), if last == "" then [] else [last]);
    }
  }
}
