/**
Ceph capability strings: comma-separated tokens that the cephfs provisioner edits as sets and
joins again in whatever order the set comes out.
*/
module CephCaps {
  import opened Options
  import opened Text

  /** `namespace` is the pool namespace of the share's directory, which is optional. */
  datatype Share = Share(path: string, pool: string, namespace: Option<string>)

  datatype Level = R | RW

  function LevelText(l: Level): string {
    if l.R? then "r" else "rw"
  }

  function Other(l: Level): Level {
    if l.R? then RW else R
  }

  function MdsCap(share: Share, l: Level): string {
    "allow " + LevelText(l) + " path=" + share.path
  }

  function OsdCap(share: Share, l: Level): string {
    "allow " + LevelText(l) + " pool=" + share.pool +
    // An empty namespace counts as none.
    if share.namespace.Some? && share.namespace.value != "" then " namespace=" + share.namespace.value else ""
  }

  // ---------------------------------------------------------------- strings as token sets

  function Tokens(s: string): set<string> {
    set t | t in Split(s, ',')
  }

  /** The tokens of all pieces: a piece that is to be added may itself hold several. */
  function TokensOfAll(pieces: set<string>): set<string> {
    set t, u | t in pieces && u in Tokens(t) :: u
  }

  lemma TokensOfOneMore(pieces: set<string>, t: string)
    ensures TokensOfAll(pieces + {t}) == TokensOfAll(pieces) + Tokens(t)
  {
    hide Tokens;
  }

  lemma TokensConcat(s: string, t: string)
    ensures Tokens(s + "," + t) == Tokens(s) + Tokens(t)
  {
    SplitConcat(s, t, ',');
  }

  /** Joining a set, in an order of its own choosing. */
  method JoinSet(pieces: set<string>) returns (s: string)
    ensures s == "" <==> pieces <= {""}
    ensures pieces != {} ==> Tokens(s) == TokensOfAll(pieces)
  {
    hide Tokens, TokensOfAll;
    if pieces == {} {
      return "";
    }
    var t := AnyOf(pieces);
    var rest := pieces - {t};
    s := t;
    ghost var joined := {t};
    TokensOfOne(t);
    while rest != {}
      invariant joined + rest == pieces && joined * rest == {} && joined != {}
      invariant Tokens(s) == TokensOfAll(joined)
      invariant s == "" <==> joined <= {""}
      decreases |rest|
    {
      t := AnyOf(rest);
      rest := rest - {t};
      TokensOfOneMore(joined, t);
      TokensConcat(s, t);
      assert !(joined + {t} <= {""});
      joined := joined + {t};
      s := s + "," + t;
    }
    assert joined == pieces;
  }

  lemma TokensOfOne(t: string)
    ensures TokensOfAll({t}) == Tokens(t)
  {}

  lemma TokensPlain(t: string)
    requires ',' !in t
    ensures Tokens(t) == {t}
  {
    SplitWhole(t, ',');
  }

  /** Tokens are split up for good. */
  lemma TokensOfTokens(s: string, pieces: set<string>)
    requires pieces <= Tokens(s)
    ensures TokensOfAll(pieces) == pieces
  {
    SplitPieces(s, ',');
    forall t | t in pieces ensures Tokens(t) == {t} {
      TokensPlain(t);
    }
    hide Tokens;
  }

  /** A single occurrence of the wanted capability and none of the conflicting one. */
  method CapUpdate(orig: string, want: string, unwanted: string) returns (s: string)
    ensures Tokens(s) == Tokens(orig) - {unwanted} + Tokens(want)
  {
    hide Tokens, TokensOfAll;
    var capTokens := TokenSet(orig);
    capTokens := capTokens - {unwanted};
    TokensOfTokens(orig, capTokens);
    TokensOfOneMore(capTokens, want);
    capTokens := capTokens + {want};
    s := JoinSet(capTokens);
  }

  method CapRemove(orig: string, want: set<string>) returns (s: string)
    ensures s == "" <==> Tokens(orig) - want <= {""}
    ensures s != "" ==> Tokens(s) == Tokens(orig) - want
  {
    hide Tokens, TokensOfAll;
    var capTokens := TokenSet(orig);
    TokensOfTokens(orig, capTokens - want);
    s := JoinSet(capTokens - want);
  }

  method TokenSet(s: string) returns (tokens: set<string>)
    ensures tokens == Tokens(s)
  {
    tokens := set t | t in Split(s, ',');
  }

  // ---------------------------------------------------------------- one user's entity

  datatype Caps = Caps(mds: Option<string>, osd: Option<string>, mon: Option<string>)

  /** An entity's capabilities as token sets. */
  datatype Grants = Grants(mds: set<string>, osd: set<string>)

  function CapText(cap: Option<string>): string {
    if cap.Some? then cap.value else ""
  }

  function GrantsOf(entity: Option<Caps>): Option<Grants> {
    if entity.None? then None
    else Some(Grants(Tokens(CapText(entity.value.mds)), Tokens(CapText(entity.value.osd))))
  }

  /** What authorizing a share makes of the entity. The extra "allow r" is for the kernel client. */
  function AfterAuthorize(g: Option<Grants>, share: Share, l: Level): Option<Grants> {
    var wantMds := Tokens("allow r," + MdsCap(share, l));
    var wantOsd := Tokens(OsdCap(share, l));
    if g.None? then Some(Grants(wantMds, wantOsd))
    else Some(Grants(g.value.mds - {MdsCap(share, Other(l))} + wantMds,
                     g.value.osd - {OsdCap(share, Other(l))} + wantOsd))
  }

  function OsdCaps(share: Share): set<string> {
    {OsdCap(share, R), OsdCap(share, RW)}
  }

  function MdsCaps(share: Share): set<string> {
    {MdsCap(share, R), MdsCap(share, RW)}
  }

  /** What removing a share makes of the entity: it goes once no osd capability but an empty
      token is left, whatever mds capabilities there are. */
  function AfterDeauthorize(g: Option<Grants>, share: Share): Option<Grants> {
    if g.None? || g.value.osd - OsdCaps(share) <= {""} then None
    else
      var mds := g.value.mds - MdsCaps(share);
      Some(Grants(if mds <= {""} then {""} else mds, g.value.osd - OsdCaps(share)))
  }

  class Entity {
    var caps: Option<Caps>

    constructor ()
      ensures caps.None?
    {
      caps := None;
    }

    method Authorize(share: Share, readonly: bool)
      modifies this
      ensures GrantsOf(caps) == AfterAuthorize(old(GrantsOf(caps)), share, if readonly then R else RW)
    {
      hide Tokens;
      var want := if readonly then R else RW;
      var wantMdsCap := "allow r," + MdsCap(share, want);
      var wantOsdCap := OsdCap(share, want);
      if caps.None? {
        caps := Some(Caps(Some(wantMdsCap), Some(wantOsdCap), Some("allow r")));
      } else {
        var unwanted := Other(want);
        var osd := CapUpdate(CapText(caps.value.osd), wantOsdCap, OsdCap(share, unwanted));
        var mds := CapUpdate(CapText(caps.value.mds), wantMdsCap, MdsCap(share, unwanted));
        caps := Some(Caps(Some(mds), Some(osd), caps.value.mon));
      }
    }

    method Deauthorize(share: Share)
      modifies this
      ensures GrantsOf(caps) == AfterDeauthorize(old(GrantsOf(caps)), share)
    {
      if caps.None? {
        return;
      }
      EmptyTokens();
      hide Tokens;
      var osd := CapRemove(CapText(caps.value.osd), OsdCaps(share));
      var mds := CapRemove(CapText(caps.value.mds), MdsCaps(share));
      if osd == "" && (osd == "" || mds == "allow r") {
        caps := None;
      } else {
        caps := Some(Caps(Some(mds), Some(osd), Some(if caps.value.mon.Some? then caps.value.mon.value else "allow r")));
      }
    }
  }

  lemma EmptyTokens()
    ensures Tokens("") == {""}
  {}

  // ---------------------------------------------------------------- runs

  datatype Op = Authorize(share: Share, level: Level) | Deauthorize(share: Share)

  /** The entity after the given calls, starting from none. */
  function Run(ops: seq<Op>): Option<Grants> {
    if ops == [] then None
    else
      var before := Run(ops[..|ops| - 1]);
      match ops[|ops| - 1]
      case Authorize(share, l) => AfterAuthorize(before, share, l)
      case Deauthorize(share) => AfterDeauthorize(before, share)
  }

  /** The shares that are authorized after the given calls, with their levels. */
  function Held(ops: seq<Op>): map<Share, Level> {
    if ops == [] then map[]
    else
      var before := Held(ops[..|ops| - 1]);
      match ops[|ops| - 1]
      case Authorize(share, l) => before[share := l]
      case Deauthorize(share) => before - {share}
  }

  predicate Plain(share: Share) {
    ',' !in share.path && ',' !in share.pool && (share.namespace.Some? ==> ',' !in share.namespace.value)
  }

  /** Comma-free shares, no two of which have an osd or an mds capability in common. */
  predicate Separate(shares: set<Share>) {
    && (forall s :: s in shares ==> Plain(s))
    && (forall s, t :: s in shares && t in shares && s != t ==>
          OsdCaps(s) * OsdCaps(t) == {} && MdsCaps(s) * MdsCaps(t) == {})
  }

  function SharesOf(ops: seq<Op>): set<Share> {
    if ops == [] then {} else SharesOf(ops[..|ops| - 1]) + {ops[|ops| - 1].share}
  }

  /** The entity of a user that holds the given shares. */
  ghost predicate Exact(g: Option<Grants>, held: map<Share, Level>) {
    && (g.Some? <==> held != map[])
    && (g.Some? ==>
          && g.value.osd == HeldOsd(held)
          && g.value.mds == {"allow r"} + HeldMds(held))
  }

  lemma CapTokens(share: Share, l: Level)
    requires Plain(share)
    ensures Tokens("allow r," + MdsCap(share, l)) == {"allow r", MdsCap(share, l)}
    ensures Tokens(OsdCap(share, l)) == {OsdCap(share, l)}
  {
    var mds := MdsCap(share, l);
    assert ',' !in mds && ',' !in OsdCap(share, l);
    assert "allow r" + "," == "allow r,";
    hide Tokens, MdsCap, OsdCap;
    TokensPlain(mds);
    TokensPlain("allow r");
    TokensConcat("allow r", mds);
    TokensPlain(OsdCap(share, l));
  }

  lemma CapsDiffer(share: Share)
    ensures OsdCap(share, R) != OsdCap(share, RW) && MdsCap(share, R) != MdsCap(share, RW)
    ensures "allow r" !in MdsCaps(share) && "" !in OsdCaps(share)
  {
    assert OsdCap(share, R)[7] == ' ' && OsdCap(share, RW)[7] == 'w';
    assert MdsCap(share, R)[7] == ' ' && MdsCap(share, RW)[7] == 'w';
  }

  function HeldOsd(held: map<Share, Level>): set<string> {
    set s | s in held :: OsdCap(s, held[s])
  }

  function HeldMds(held: map<Share, Level>): set<string> {
    set s | s in held :: MdsCap(s, held[s])
  }

  lemma CapInCaps(s: Share, l: Level)
    ensures OsdCap(s, l) in OsdCaps(s) && MdsCap(s, l) in MdsCaps(s)
    ensures OsdCaps(s) == {OsdCap(s, l), OsdCap(s, Other(l))} && MdsCaps(s) == {MdsCap(s, l), MdsCap(s, Other(l))}
  {
    assert l == R || l == RW;
  }

  lemma CapsAfterAdding(held: map<Share, Level>, s: Share, l: Level)
    requires Separate(held.Keys + {s})
    ensures HeldOsd(held[s := l]) == HeldOsd(held) - {OsdCap(s, Other(l))} + {OsdCap(s, l)}
    ensures HeldMds(held[s := l]) == HeldMds(held) - {MdsCap(s, Other(l))} + {MdsCap(s, l)}
  {
    hide OsdCap, MdsCap, Plain, Separate, OsdCaps, MdsCaps;
    CapsDiffer(s);
    CapInCaps(s, l);
    Disjoint(held, s);
    var held' := held[s := l];
    assert held'[s] == l && forall t :: t in held && t != s ==> t in held' && held'[t] == held[t];
    assert OsdCap(s, l) in HeldOsd(held') && MdsCap(s, l) in HeldMds(held');
    assert s in held ==> held[s] == l || held[s] == Other(l);
  }

  lemma OsdAfterRemoving(held: map<Share, Level>, s: Share)
    requires Separate(held.Keys + {s})
    ensures HeldOsd(held - {s}) == HeldOsd(held) - OsdCaps(s)
  {
    hide OsdCap, MdsCap, Plain, Separate, OsdCaps, MdsCaps;
    Disjoint(held, s);
    var held' := held - {s};
    if s in held {
      CapInCaps(s, held[s]);
    }
    forall x ensures x in HeldOsd(held') <==> x in HeldOsd(held) && x !in OsdCaps(s) {
      if x in HeldOsd(held) && x !in OsdCaps(s) {
        var t :| t in held && x == OsdCap(t, held[t]);
        assert t in held';
      }
    }
  }

  lemma MdsAfterRemoving(held: map<Share, Level>, s: Share)
    requires Separate(held.Keys + {s})
    ensures HeldMds(held - {s}) == HeldMds(held) - MdsCaps(s)
  {
    hide OsdCap, MdsCap, Plain, Separate, OsdCaps, MdsCaps;
    Disjoint(held, s);
    var held' := held - {s};
    if s in held {
      CapInCaps(s, held[s]);
    }
    forall x ensures x in HeldMds(held') <==> x in HeldMds(held) && x !in MdsCaps(s) {
      if x in HeldMds(held) && x !in MdsCaps(s) {
        var t :| t in held && x == MdsCap(t, held[t]);
        assert t in held';
      }
    }
  }

  lemma Disjoint(held: map<Share, Level>, s: Share)
    requires Separate(held.Keys + {s})
    ensures forall t :: t in held && t != s ==> OsdCap(t, held[t]) !in OsdCaps(s) && MdsCap(t, held[t]) !in MdsCaps(s)
  {
    hide OsdCap, MdsCap, Plain, OsdCaps, MdsCaps;
    forall t | t in held && t != s ensures OsdCap(t, held[t]) !in OsdCaps(s) && MdsCap(t, held[t]) !in MdsCaps(s) {
      CapInCaps(t, held[t]);
      assert t in held.Keys + {s} && s in held.Keys + {s};
      var osd, mds := OsdCap(t, held[t]), MdsCap(t, held[t]);
      assert osd in OsdCaps(s) ==> osd in OsdCaps(t) * OsdCaps(s);
      assert mds in MdsCaps(s) ==> mds in MdsCaps(t) * MdsCaps(s);
    }
  }

  lemma NothingHeld(held: map<Share, Level>)
    ensures HeldOsd(held) <= {""} <==> held == map[]
  {
    hide OsdCap, OsdCaps;
    forall s | s in held ensures OsdCap(s, held[s]) in HeldOsd(held) && OsdCap(s, held[s]) != "" {
      CapsDiffer(s);
      CapInCaps(s, held[s]);
    }
    if held != map[] {
      var s :| s in held;
    }
  }

  lemma {:induction false} HeldAreShares(ops: seq<Op>)
    ensures Held(ops).Keys <= SharesOf(ops)
  {
    if ops != [] {
      HeldAreShares(ops[..|ops| - 1]);
    }
  }

  lemma SeparateSubset(shares: set<Share>, part: set<Share>)
    requires Separate(shares) && part <= shares
    ensures Separate(part)
  {
    hide Plain, OsdCaps, MdsCaps;
  }

  /** Over any sequence of authorize and deauthorize calls for one user, in whatever order the
      sets are joined: the entity exists exactly while some share is authorized, its osd tokens
      are exactly those of the authorized shares, and its mds tokens are theirs and "allow r". */
  lemma {:induction false} CapabilityRuns(ops: seq<Op>)
    requires Separate(SharesOf(ops))
    ensures Exact(Run(ops), Held(ops))
  {
    if ops != [] {
      var before, share := ops[..|ops| - 1], ops[|ops| - 1].share;
      HeldAreShares(before);
      SeparateSubset(SharesOf(ops), SharesOf(before));
      SeparateSubset(SharesOf(ops), Held(before).Keys + {share});
      CapabilityRuns(before);
      assert Plain(share);
      match ops[|ops| - 1] {
        case Authorize(_, l) => AuthorizeKeepsExact(Run(before), Held(before), share, l);
        case Deauthorize(_) => DeauthorizeKeepsExact(Run(before), Held(before), share);
      }
    }
  }

  lemma AuthorizeKeepsExact(g: Option<Grants>, held: map<Share, Level>, s: Share, l: Level)
    requires Exact(g, held) && Plain(s) && Separate(held.Keys + {s})
    ensures Exact(AfterAuthorize(g, s, l), held[s := l])
  {
    hide Tokens, MdsCap, OsdCap, HeldOsd, HeldMds, Separate, Plain, MdsCaps;
    CapTokens(s, l);
    CapsAfterAdding(held, s, l);
    AllowRIsNoShares(s, Other(l));
    if g.None? {
      FirstShare(s, l);
    }
  }

  lemma AllowRIsNoShares(s: Share, l: Level)
    ensures MdsCap(s, l) != "allow r"
  {
    CapsDiffer(s);
    CapInCaps(s, l);
  }

  lemma FirstShare(s: Share, l: Level)
    ensures HeldOsd(map[s := l]) == {OsdCap(s, l)} && HeldMds(map[s := l]) == {MdsCap(s, l)}
  {
    hide OsdCap, MdsCap;
    var held := map[s := l];
    assert s in held && held[s] == l && forall t :: t in held <==> t == s;
  }

  lemma DeauthorizeKeepsExact(g: Option<Grants>, held: map<Share, Level>, s: Share)
    requires Exact(g, held) && Separate(held.Keys + {s})
    ensures Exact(AfterDeauthorize(g, s), held - {s})
  {
    hide Tokens, MdsCap, OsdCap, HeldOsd, HeldMds, Separate, MdsCaps, OsdCaps;
    OsdAfterRemoving(held, s);
    MdsAfterRemoving(held, s);
    CapsDiffer(s);
    NothingHeld(held - {s});
    if g.Some? {
      assert g.value.mds - MdsCaps(s) == {"allow r"} + HeldMds(held - {s});
    }
  }

  /** Shares are separate when their paths differ, and their pool namespaces, which must be set. */
  lemma DistinctSharesSeparate(shares: set<Share>)
    requires forall s :: s in shares ==>
      Plain(s) && ' ' !in s.pool && s.namespace.Some? && s.namespace.value != ""
    requires forall s, t :: s in shares && t in shares && s != t ==> s.path != t.path && s.namespace != t.namespace
    ensures Separate(shares)
  {
    forall s, t | s in shares && t in shares && s != t
      ensures OsdCaps(s) * OsdCaps(t) == {} && MdsCaps(s) * MdsCaps(t) == {}
    {
      forall l, m ensures OsdCap(s, l) != OsdCap(t, m) && MdsCap(s, l) != MdsCap(t, m) {
        MdsCapReadsBack(s, l, t, m);
        OsdCapReadsBack(s, l, t, m);
      }
    }
  }

  lemma MdsCapReadsBack(s: Share, l: Level, t: Share, m: Level)
    ensures MdsCap(s, l) == MdsCap(t, m) ==> s.path == t.path
  {
    var a, b := "allow " + LevelText(l) + " path=", "allow " + LevelText(m) + " path=";
    if MdsCap(s, l) == MdsCap(t, m) {
      assert MdsCap(s, l)[7] == if l.R? then ' ' else 'w';
      assert MdsCap(t, m)[7] == if m.R? then ' ' else 'w';
      assert l == m && a == b;
      assert MdsCap(s, l)[|a|..] == s.path && MdsCap(t, m)[|a|..] == t.path;
    }
  }

  lemma OsdCapReadsBack(s: Share, l: Level, t: Share, m: Level)
    requires s.namespace.Some? && s.namespace.value != "" && t.namespace.Some? && t.namespace.value != ""
    requires ' ' !in s.pool && ' ' !in t.pool
    ensures OsdCap(s, l) == OsdCap(t, m) ==> s.namespace == t.namespace
  {
    var a := "allow " + LevelText(l) + " pool=";
    if OsdCap(s, l) == OsdCap(t, m) {
      assert OsdCap(s, l)[7] == if l.R? then ' ' else 'w';
      assert OsdCap(t, m)[7] == if m.R? then ' ' else 'w';
      assert l == m;
      var x, y := " namespace=" + s.namespace.value, " namespace=" + t.namespace.value;
      assert OsdCap(s, l)[|a|..] == s.pool + x && OsdCap(t, m)[|a|..] == t.pool + y;
      SameFront(s.pool, x, t.pool, y);
      assert x[11..] == s.namespace.value && y[11..] == t.namespace.value;
    }
  }

  lemma SameFront(p: string, x: string, q: string, y: string)
    requires ' ' !in p && ' ' !in q && x != [] && y != [] && x[0] == ' ' && y[0] == ' '
    requires p + x == q + y
    ensures x == y
  {
    var s, t := p + x, q + y;
    assert s[|p|] == ' ' && t[|q|] == ' ';
    assert forall i :: 0 <= i < |p| ==> s[i] == p[i] && p[i] in p;
    assert forall i :: 0 <= i < |q| ==> t[i] == q[i] && q[i] in q;
    assert |p| == |q|;
    assert s[|p|..] == x && t[|q|..] == y;
  }

  // ---------------------------------------------------------------- exactly which shares

  /** One share is authorized, and another one deauthorized. */
  function OtherTakenAway(t: Share, l: Level, s: Share): seq<Op> {
    [Authorize(t, l), Deauthorize(s)]
  }

  lemma OtherTakenAwayRuns(t: Share, l: Level, s: Share)
    requires s != t && Plain(t)
    ensures SharesOf(OtherTakenAway(t, l, s)) == {s, t} && Held(OtherTakenAway(t, l, s)) == map[t := l]
    ensures Run(OtherTakenAway(t, l, s)) ==
      AfterDeauthorize(Some(Grants({"allow r", MdsCap(t, l)}, {OsdCap(t, l)})), s)
  {
    var ops := OtherTakenAway(t, l, s);
    CapTokens(t, l);
    hide Tokens, MdsCap, OsdCap, AfterDeauthorize;
    assert ops[..1] == [Authorize(t, l)] && ops[..1][..0] == [];
    assert Run(ops[..1]) == AfterAuthorize(None, t, l);
    assert Held(ops[..1]) == map[t := l] && SharesOf(ops[..1]) == {t};
  }

  /** Deauthorizing a share takes a capability that it has in common with another from that one. */
  lemma CommonCapIsLost(s: Share, t: Share, l: Level)
    requires s != t && Plain(t) && (OsdCap(t, l) in OsdCaps(s) || MdsCap(t, l) in MdsCaps(s))
    ensures !Exact(Run(OtherTakenAway(t, l, s)), Held(OtherTakenAway(t, l, s)))
  {
    OtherTakenAwayRuns(t, l, s);
    FirstShare(t, l);
    hide MdsCap, OsdCap, MdsCaps, OsdCaps, Run, Held, HeldOsd, HeldMds;
    var g := Run(OtherTakenAway(t, l, s));
    assert map[t := l] != map[] by {
      assert t in map[t := l];
    }
    if OsdCap(t, l) in OsdCaps(s) {
      assert {OsdCap(t, l)} - OsdCaps(s) == {};
    } else if g.Some? {
      AllowRIsNoShares(t, l);
      assert MdsCap(t, l) !in {"allow r", MdsCap(t, l)} - MdsCaps(s);
      CapsDiffer(t);
      CapInCaps(t, l);
      NotEmptyCap(t, l);
      assert MdsCap(t, l) !in g.value.mds;
    }
  }

  lemma NotEmptyCap(t: Share, l: Level)
    ensures MdsCap(t, l) != "" && OsdCap(t, l) != ""
  {}

  /** Some level at which one share's capability is one of the other's. */
  lemma CommonCap(s: Share, t: Share) returns (l: Level)
    requires OsdCaps(s) * OsdCaps(t) != {} || MdsCaps(s) * MdsCaps(t) != {}
    ensures OsdCap(t, l) in OsdCaps(s) || MdsCap(t, l) in MdsCaps(s)
  {
    hide OsdCap, MdsCap;
    var x;
    if OsdCaps(s) * OsdCaps(t) != {} {
      x :| x in OsdCaps(s) * OsdCaps(t);
      l := if x == OsdCap(t, R) then R else RW;
    } else {
      x :| x in MdsCaps(s) * MdsCaps(t);
      l := if x == MdsCap(t, R) then R else RW;
    }
  }

  /** The condition is exact: every run over the given shares leaves the user exactly what it holds
      if and only if no two of them have a capability in common. */
  lemma ExactIffSeparate(shares: set<Share>)
    requires forall s :: s in shares ==> Plain(s)
    ensures Separate(shares) <==> forall ops :: SharesOf(ops) <= shares ==> Exact(Run(ops), Held(ops))
  {
    hide Plain, OsdCaps, MdsCaps, Exact, Run, Held, SharesOf;
    if Separate(shares) {
      forall ops | SharesOf(ops) <= shares ensures Exact(Run(ops), Held(ops)) {
        SeparateSubset(shares, SharesOf(ops));
        CapabilityRuns(ops);
      }
    } else {
      var s, t :| s in shares && t in shares && s != t && !(OsdCaps(s) * OsdCaps(t) == {} && MdsCaps(s) * MdsCaps(t) == {});
      var l := CommonCap(s, t);
      CommonCapIsLost(s, t, l);
      OtherTakenAwayRuns(t, l, s);
    }
  }

  /** Without pool namespaces any two shares of one pool have the same osd capability: they are not
      separate, and taking one away takes the entity, and with it the other's access. */
  lemma SharedPoolLosesAccess(a: Share, b: Share, l: Level)
    requires a != b && a.pool == b.pool && Plain(a) && Plain(b)
    requires a.namespace in {None, Some("")} && b.namespace in {None, Some("")}
    ensures !Separate({a, b})
    ensures Run(OtherTakenAway(b, l, a)).None? && Held(OtherTakenAway(b, l, a)) == map[b := l]
  {
    assert OsdCap(b, R) == OsdCap(a, R) && OsdCap(b, RW) == OsdCap(a, RW);
    OtherTakenAwayRuns(b, l, a);
    hide OsdCap, MdsCap, Run, Held, Plain;
    CapInCaps(a, l);
    assert OsdCap(b, l) in OsdCaps(a);
    assert {OsdCap(b, l)} - OsdCaps(a) == {};
    assert OsdCap(a, l) in OsdCaps(a) * OsdCaps(b);
    assert a in {a, b} && b in {a, b};
  }

  /** Any run of calls on one user's entity itself, with whatever order each join takes. */
  method Serve(ops: seq<Op>) returns (entity: Entity)
    ensures fresh(entity) && GrantsOf(entity.caps) == Run(ops)
    ensures Separate(SharesOf(ops)) ==> Exact(GrantsOf(entity.caps), Held(ops))
  {
    hide AfterAuthorize, AfterDeauthorize, Tokens, Separate, SharesOf, Exact, Held;
    entity := new Entity();
    for i := 0 to |ops|
      invariant GrantsOf(entity.caps) == Run(ops[..i])
      invariant fresh(entity)
    {
      assert ops[..i + 1][..i] == ops[..i];
      match ops[i] {
        case Authorize(share, l) => entity.Authorize(share, l == R);
        case Deauthorize(share) => entity.Deauthorize(share);
      }
    }
    assert ops[..|ops|] == ops;
    if Separate(SharesOf(ops)) {
      CapabilityRuns(ops);
    }
  }
}
