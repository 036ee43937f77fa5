/**
The server annotations of gluster PVs: written as "key:value" pieces joined by commas when a
volume is provisioned, and read back when it is deleted.
*/
module GlusterAnnotations {
  import opened Options
  import opened Text

  /** How the pieces are read: REST servers have a url, whose value may hold colons. */
  datatype Mode = Rest | GlusterBlock

  function Piece(key: string, value: string): string {
    key + ":" + value
  }

  // ---------------------------------------------------------------- reading

  /** The key and value of one piece. A piece without a colon has no value to index. */
  function Field(piece: string, mode: Mode): Option<(string, string)> {
    var s := Split(piece, ':');
    if mode.Rest? && s[0] == "url" then Some((s[0], Join(s[1..], ':')))
    else if |s| == 1 then None
    else Some((s[0], s[1]))
  }

  /** What the pieces say, the later ones overriding; none if the reader breaks down. */
  function Read(pieces: seq<string>, mode: Mode): Option<map<string, string>> {
    if pieces == [] then Some(map[])
    else
      var before := Read(pieces[..|pieces| - 1], mode);
      var piece := pieces[|pieces| - 1];
      if before.None? || piece == "" then before
      else
        var field := Field(piece, mode);
        if field.None? then None else Some(before.value[field.value.0 := field.value.1])
  }

  lemma ReadOneMore(pieces: seq<string>, i: nat, mode: Mode)
    requires i < |pieces|
    ensures Read(pieces[..i + 1], mode) == (
              var before := Read(pieces[..i], mode);
              if before.None? || pieces[i] == "" then before
              else if Field(pieces[i], mode).None? then None
              else Some(before.value[Field(pieces[i], mode).value.0 := Field(pieces[i], mode).value.1]))
  {
    assert pieces[..i + 1][..i] == pieces[..i];
  }

  lemma {:induction false} BrokenStays(pieces: seq<string>, i: nat, mode: Mode)
    requires i <= |pieces| && Read(pieces[..i], mode).None?
    ensures Read(pieces, mode).None?
    decreases |pieces| - i
  {
    if i == |pieces| {
      assert pieces[..i] == pieces;
    } else {
      ReadOneMore(pieces, i, mode);
      BrokenStays(pieces, i + 1, mode);
    }
  }

  /** Reads an annotation; none if indexing a piece breaks down. */
  method ParseServer(annotation: string, mode: Mode) returns (args: Option<map<string, string>>)
    ensures args == Read(Split(annotation, ','), mode)
  {
    hide Read, Split, Join;
    var pieces := Split(annotation, ',');
    var modeArgs: map<string, string> := map[];
    NothingRead(pieces, mode);
    for i := 0 to |pieces|
      invariant Read(pieces[..i], mode) == Some(modeArgs)
    {
      ReadOneMore(pieces, i, mode);
      if pieces[i] != "" {
        var s := Split(pieces[i], ':');
        if mode.Rest? && s[0] == "url" {
          modeArgs := modeArgs[s[0] := Join(s[1..], ':')];
        } else if |s| == 1 {
          BrokenStays(pieces, i + 1, mode);
          return None;
        } else {
          modeArgs := modeArgs[s[0] := s[1]];
        }
      }
    }
    assert pieces[..|pieces|] == pieces;
    args := Some(modeArgs);
  }

  lemma NothingRead(pieces: seq<string>, mode: Mode)
    ensures Read(pieces[..0], mode) == Some(map[])
  {}

  // ---------------------------------------------------------------- writing

  /** `order` goes through the keys of `args` once each. */
  ghost predicate IsOrder(order: seq<string>, args: map<string, string>) {
    && (forall k :: k in order <==> k in args)
    && (forall i, j :: 0 <= i < j < |order| ==> order[i] != order[j])
  }

  function Pieces(order: seq<string>, args: map<string, string>): seq<string>
    requires forall k :: k in order ==> k in args
  {
    seq(|order|, i requires 0 <= i < |order| => Piece(order[i], args[order[i]]))
  }

  /** The annotation for the gluster-block arguments, in the order in which the map yields them. */
  method PrintBlockModeArgs(args: map<string, string>) returns (modeAnn: string)
    ensures exists order :: IsOrder(order, args) && modeAnn == Join(Pieces(order, args), ',')
    ensures PlainKeys(args) ==>
      (Read(Split(modeAnn, ','), GlusterBlock) == Some(args) <==> AllClean(args, GlusterBlock))
  {
    hide Join, Split, Read, AllClean, PlainKeys;
    var blockString: seq<string> := [];
    ghost var order: seq<string> := [];
    modeAnn := "";
    NothingJoined();
    var keys := args.Keys;
    while keys != {}
      invariant forall k :: k in args <==> k in keys || k in order
      invariant forall k :: k in order ==> k !in keys
      invariant forall i, j :: 0 <= i < j < |order| ==> order[i] != order[j]
      invariant blockString == Pieces(order, args) && modeAnn == Join(blockString, ',')
      decreases |keys|
    {
      var k := AnyOf(keys);
      keys := keys - {k};
      assert k !in order;
      blockString := blockString + [k + ":" + args[k]];
      order := order + [k];
      modeAnn := Join(blockString, ',');
    }
    assert IsOrder(order, args);
    if PlainKeys(args) {
      ArgsRoundTrip(order, args, GlusterBlock);
    }
  }

  lemma NothingJoined()
    ensures Join([], ',') == ""
  {}

  /** The annotation for a REST server, of file and of block volumes alike. */
  function PrintServer(url: string, user: string, secret: string, secretNamespace: string): string {
    "url:" + url + "," + "user:" + user + "," + "secret:" + secret + "," + "secretnamespace:" + secretNamespace
  }

  function ServerArgs(url: string, user: string, secret: string, secretNamespace: string): map<string, string> {
    map["url" := url, "user" := user, "secret" := secret, "secretnamespace" := secretNamespace]
  }

  const SERVER_KEYS: seq<string> := ["url", "user", "secret", "secretnamespace"]

  // ---------------------------------------------------------------- round trips

  /** A value comes back whole. */
  predicate Clean(key: string, value: string, mode: Mode) {
    ',' !in value && (':' in value ==> mode.Rest? && key == "url")
  }

  predicate PlainKeys(args: map<string, string>) {
    forall k :: k in args ==> ',' !in k && ':' !in k
  }

  predicate AllClean(args: map<string, string>, mode: Mode) {
    forall k :: k in args ==> Clean(k, args[k], mode)
  }

  lemma PieceReads(key: string, value: string, mode: Mode)
    requires ':' !in key && Clean(key, value, mode)
    ensures Field(Piece(key, value), mode) == Some((key, value))
  {
    hide Split, Join;
    assert Piece(key, value) == key + [':'] + value;
    SplitFirst(key, value, ':');
    var s := [key] + Split(value, ':');
    assert s[1..] == Split(value, ':');
    JoinSplit(value, ':');
    if ':' !in value {
      SplitWhole(value, ':');
    }
  }

  lemma {:induction false} PiecesRead(order: seq<string>, args: map<string, string>, mode: Mode)
    requires PlainKeys(args) && AllClean(args, mode) && forall k :: k in order ==> k in args
    ensures Read(Pieces(order, args), mode) == Some(map k | k in order :: args[k])
  {
    hide Field, Clean;
    if order != [] {
      var init, last := order[..|order| - 1], order[|order| - 1];
      var pieces := Pieces(order, args);
      assert pieces[..|order| - 1] == Pieces(init, args);
      PiecesRead(init, args, mode);
      assert last in order;
      PieceReads(last, args[last], mode);
      assert pieces[|order| - 1] == Piece(last, args[last]) != "";
      assert order == init + [last];
      assert (map k | k in init :: args[k])[last := args[last]] == map k | k in order :: args[k];
    }
  }

  lemma {:induction false} JoinHasNoOther(parts: seq<string>, sep: char, c: char)
    requires c != sep && forall p :: p in parts ==> c !in p
    ensures c !in Join(parts, sep)
  {
    if |parts| > 1 {
      JoinHasNoOther(parts[1..], sep, c);
    } else if |parts| == 1 {
      assert parts[0] in parts;
    }
  }

  lemma FieldIsClean(piece: string, mode: Mode)
    requires ',' !in piece && Field(piece, mode).Some?
    ensures Clean(Field(piece, mode).value.0, Field(piece, mode).value.1, mode)
  {
    hide Split, Join;
    var s := Split(piece, ':');
    SplitPieces(piece, ':');
    SplitHasNoOther(piece, ':', ',');
    JoinHasNoOther(s[1..], ':', ',');
  }

  lemma {:induction false} WhatIsReadIsClean(pieces: seq<string>, mode: Mode)
    requires (forall p :: p in pieces ==> ',' !in p) && Read(pieces, mode).Some?
    ensures AllClean(Read(pieces, mode).value, mode)
  {
    hide Field, Clean;
    if pieces != [] {
      WhatIsReadIsClean(pieces[..|pieces| - 1], mode);
      var piece := pieces[|pieces| - 1];
      if piece != "" {
        FieldIsClean(piece, mode);
      }
    }
  }

  lemma PrintedPieces(order: seq<string>, args: map<string, string>, mode: Mode)
    requires PlainKeys(args) && AllClean(args, mode) && forall k :: k in order ==> k in args
    ensures Read(Split(Join(Pieces(order, args), ','), ','), mode) == Read(Pieces(order, args), mode)
  {
    var pieces := Pieces(order, args);
    if pieces == [] {
      assert Join(pieces, ',') == "" && Split("", ',') == [""];
      assert [""][..0] == [];
      assert Read([""], mode) == Read([], mode);
    } else {
      hide Split, Join, Read;
      forall p | p in pieces ensures ',' !in p {
        var i :| 0 <= i < |pieces| && pieces[i] == p;
        assert order[i] in order && Clean(order[i], args[order[i]], mode);
      }
      SplitJoin(pieces, ',');
    }
  }

  /** Whatever the order of printing, the arguments come back exactly if no value holds a comma
      and none but a REST server's url a colon. */
  lemma ArgsRoundTrip(order: seq<string>, args: map<string, string>, mode: Mode)
    requires PlainKeys(args) && IsOrder(order, args)
    ensures Read(Split(Join(Pieces(order, args), ','), ','), mode) == Some(args) <==> AllClean(args, mode)
  {
    hide Split, Join, Read, Clean;
    var pieces := Split(Join(Pieces(order, args), ','), ',');
    if AllClean(args, mode) {
      PrintedPieces(order, args, mode);
      PiecesRead(order, args, mode);
      assert (map k | k in order :: args[k]) == args;
    } else if Read(pieces, mode).Some? {
      SplitPieces(Join(Pieces(order, args), ','), ',');
      WhatIsReadIsClean(pieces, mode);
    }
  }

  /** Reading a printed server gives back url, user, secret and namespace exactly if they hold no
      comma and, the url apart, no colon. */
  lemma ServerRoundTrip(url: string, user: string, secret: string, secretNamespace: string)
    ensures
      Read(Split(PrintServer(url, user, secret, secretNamespace), ','), Rest)
        == Some(ServerArgs(url, user, secret, secretNamespace))
      <==>
      && ',' !in url && ',' !in user && ',' !in secret && ',' !in secretNamespace
      && ':' !in user && ':' !in secret && ':' !in secretNamespace
  {
    var args := ServerArgs(url, user, secret, secretNamespace);
    ServerKeysPlain(args);
    ServerIsJoined(url, user, secret, secretNamespace);
    hide Split, Join, Read, PlainKeys, IsOrder, Pieces, PrintServer;
    ArgsRoundTrip(SERVER_KEYS, args, Rest);
    ServerClean(url, user, secret, secretNamespace);
  }

  lemma ServerKeysPlain(args: map<string, string>)
    requires args.Keys == {"url", "user", "secret", "secretnamespace"}
    ensures PlainKeys(args) && IsOrder(SERVER_KEYS, args)
  {
    var keys := SERVER_KEYS;
    assert keys[0] == "url" && keys[1] == "user" && keys[2] == "secret" && keys[3] == "secretnamespace";
    assert |keys[0]| == 3 && |keys[1]| == 4 && |keys[2]| == 6 && |keys[3]| == 15;
  }

  lemma ServerClean(url: string, user: string, secret: string, secretNamespace: string)
    ensures AllClean(ServerArgs(url, user, secret, secretNamespace), Rest) <==>
      && Clean("url", url, Rest) && Clean("user", user, Rest)
      && Clean("secret", secret, Rest) && Clean("secretnamespace", secretNamespace, Rest)
  {
    var args := ServerArgs(url, user, secret, secretNamespace);
    assert "url" in args && "user" in args && "secret" in args && "secretnamespace" in args;
    assert |"url"| == 3 && |"user"| == 4 && |"secret"| == 6 && |"secretnamespace"| == 15;
    hide Clean;
  }

  lemma JoinPair(first: string, rest: seq<string>)
    requires rest != []
    ensures Join([first] + rest, ',') == first + "," + Join(rest, ',')
  {
    assert ([first] + rest)[1..] == rest;
  }

  lemma JoinOne(only: string)
    ensures Join([only], ',') == only
  {}

  lemma Concatenated(url: string, user: string, secret: string, secretNamespace: string)
    ensures PrintServer(url, user, secret, secretNamespace) ==
            Piece("url", url) + "," + (Piece("user", user) + "," +
            (Piece("secret", secret) + "," + Piece("secretnamespace", secretNamespace)))
  {
    assert "url" + ":" == "url:" && "user" + ":" == "user:" && "secret" + ":" == "secret:" &&
           "secretnamespace" + ":" == "secretnamespace:";
  }

  lemma ServerIsJoined(url: string, user: string, secret: string, secretNamespace: string)
    ensures SERVER_KEYS == ["url", "user", "secret", "secretnamespace"]
    ensures
      var args := ServerArgs(url, user, secret, secretNamespace);
      (forall k :: k in SERVER_KEYS ==> k in args) &&
      PrintServer(url, user, secret, secretNamespace) == Join(Pieces(SERVER_KEYS, args), ',')
  {
    var args := ServerArgs(url, user, secret, secretNamespace);
    assert |"url"| == 3 && |"user"| == 4 && |"secret"| == 6 && |"secretnamespace"| == 15;
    var a, b, c, d := Piece("url", url), Piece("user", user), Piece("secret", secret), Piece("secretnamespace", secretNamespace);
    assert Pieces(SERVER_KEYS, args) == [a, b, c, d];
    assert [a, b, c, d] == [a] + [b, c, d] && [b, c, d] == [b] + [c, d] && [c, d] == [c] + [d];
    hide Join, Piece;
    JoinPair(a, [b, c, d]);
    JoinPair(b, [c, d]);
    JoinPair(c, [d]);
    JoinOne(d);
    Concatenated(url, user, secret, secretNamespace);
  }

  // ---------------------------------------------------------------- a storage class's block arguments

  datatype Parsed = Args(args: map<string, string>) | Invalid | Broken

  /** One "key=value" argument of a storage class, added to those before it. */
  function WithBlockArg(args: map<string, string>, v: string): Parsed {
    var info := Split(v, '=');
    if info[0] != "glustervol" && info[0] != "hosts" then Invalid
    else if |info| == 1 then Broken
    else if info[1] == "" then Invalid
    else Args(args[info[0] := info[1]])
  }

  /** All arguments; the first that is wrong decides. */
  function BlockArgs(params: seq<string>): Parsed {
    if params == [] then Args(map[])
    else
      var before := BlockArgs(params[..|params| - 1]);
      if before.Args? then WithBlockArg(before.args, params[|params| - 1]) else before
  }

  lemma BlockArgsOneMore(params: seq<string>, i: nat)
    requires i < |params| && BlockArgs(params[..i]).Args?
    ensures BlockArgs(params[..i + 1]) == WithBlockArg(BlockArgs(params[..i]).args, params[i])
  {
    assert params[..i + 1][..i] == params[..i];
  }

  lemma {:induction false} FirstErrorDecides(params: seq<string>, i: nat)
    requires i <= |params| && !BlockArgs(params[..i]).Args?
    ensures BlockArgs(params) == BlockArgs(params[..i])
    decreases |params| - i
  {
    if i == |params| {
      assert params[..i] == params;
    } else {
      assert params[..i + 1][..i] == params[..i];
      FirstErrorDecides(params, i + 1);
    }
  }

  method ParseBlockModeArgs(inArgs: string) returns (r: Parsed)
    ensures r == BlockArgs(Split(inArgs, ','))
  {
    hide BlockArgs, Split;
    var params := Split(inArgs, ',');
    var modeArgs: map<string, string> := map[];
    NoBlockArgs(params);
    for i := 0 to |params|
      invariant BlockArgs(params[..i]) == Args(modeArgs)
    {
      BlockArgsOneMore(params, i);
      var info := Split(params[i], '=');
      if info[0] != "glustervol" && info[0] != "hosts" {
        FirstErrorDecides(params, i + 1);
        return Invalid;
      } else if |info| == 1 {
        FirstErrorDecides(params, i + 1);
        return Broken;
      } else if info[1] == "" {
        FirstErrorDecides(params, i + 1);
        return Invalid;
      }
      modeArgs := modeArgs[info[0] := info[1]];
    }
    assert params[..|params|] == params;
    r := Args(modeArgs);
  }

  lemma NoBlockArgs(params: seq<string>)
    ensures BlockArgs(params[..0]) == Args(map[])
  {}

  lemma {:induction false} BlockArgsAreCommaFree(params: seq<string>)
    requires (forall p :: p in params ==> ',' !in p) && BlockArgs(params).Args?
    ensures BlockArgs(params).args.Keys <= {"glustervol", "hosts"}
    ensures forall k :: k in BlockArgs(params).args ==> ',' !in BlockArgs(params).args[k]
  {
    hide Split;
    if params != [] {
      BlockArgsAreCommaFree(params[..|params| - 1]);
      SplitHasNoOther(params[|params| - 1], '=', ',');
    }
  }

  /** The arguments of any storage class that is accepted come back from the annotation, in
      whatever order they were printed, exactly if none of them holds a colon. */
  lemma BlockArgsRoundTrip(inArgs: string, order: seq<string>)
    requires BlockArgs(Split(inArgs, ',')).Args? && IsOrder(order, BlockArgs(Split(inArgs, ',')).args)
    ensures
      var args := BlockArgs(Split(inArgs, ',')).args;
      Read(Split(Join(Pieces(order, args), ','), ','), GlusterBlock) == Some(args)
      <==> forall k :: k in args ==> ':' !in args[k]
  {
    hide Split, BlockArgs, Read, Join, Pieces, IsOrder;
    var params := Split(inArgs, ',');
    var args := BlockArgs(params).args;
    SplitPieces(inArgs, ',');
    BlockArgsAreCommaFree(params);
    assert ',' !in "glustervol" && ':' !in "glustervol" && ',' !in "hosts" && ':' !in "hosts";
    ArgsRoundTrip(order, args, GlusterBlock);
  }

  // ---------------------------------------------------------------- REST credentials

  datatype Credentials = Found(args: map<string, string>) | Missing | Crash

  function Lookup(args: map<string, string>, key: string): string {
    if key in args then args[key] else ""
  }

  /** `stored` is what looking up the secret would give. */
  method GetRESTCredentials(annotation: Option<string>, stored: Result<string>) returns (r: Credentials)
    ensures annotation.None? ==> r.Missing?
    ensures forall url, user, secret, ns ::
      annotation == Some(PrintServer(url, user, secret, ns)) && AllClean(ServerArgs(url, user, secret, ns), Rest) ==>
        if secret == "" || ns == "" then r == Found(ServerArgs(url, user, secret, ns)["restsecretvalue" := ""])
        else if stored.Success? then r == Found(ServerArgs(url, user, secret, ns)["restsecretvalue" := stored.value])
        else r.Missing?
  {
    if annotation.None? {
      return Missing;
    }
    hide Split, Read, AllClean, PrintServer;
    var parsed := ParseServer(annotation.value, Rest);
    forall url, user, secret, ns
      | annotation == Some(PrintServer(url, user, secret, ns)) && AllClean(ServerArgs(url, user, secret, ns), Rest)
      ensures parsed == Some(ServerArgs(url, user, secret, ns))
    {
      ServerReads(url, user, secret, ns);
    }
    if parsed.None? {
      return Crash;
    }
    var args := parsed.value["restsecretvalue" := ""];
    if Lookup(args, "secret") != "" && Lookup(args, "secretnamespace") != "" {
      if stored.Failure? {
        return Missing;
      }
      args := args["restsecretvalue" := stored.value];
    }
    r := Found(args);
  }

  lemma ServerReads(url: string, user: string, secret: string, secretNamespace: string)
    requires AllClean(ServerArgs(url, user, secret, secretNamespace), Rest)
    ensures Read(Split(PrintServer(url, user, secret, secretNamespace), ','), Rest)
            == Some(ServerArgs(url, user, secret, secretNamespace))
  {
    ServerClean(url, user, secret, secretNamespace);
    ServerRoundTrip(url, user, secret, secretNamespace);
  }
}
