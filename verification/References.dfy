/**
 Containers as Docker lists them, and the ways the components look up what a
 `network_mode: container:<ref>` refers to.
 */
module References {
  import opened GoStrings

  datatype Container = Container(
    id: string, names: seq<string>, state: string, networkMode: string, labels: map<string, string>, imageID: string)

  const NETMODE := "container:"

  function Stripped(name: string): string {
    TrimPrefix(name, "/")
  }

  predicate Named(c: Container, ref: string) {
    exists n | n in c.names :: Stripped(n) == ref
  }

  predicate ShortId(c: Container, ref: string) {
    |ref| >= 12 && HasPrefix(c.id, ref)
  }

  /** Docker's own reading: full ID, ID prefix of 12 or more characters, or name. */
  predicate Denotes(c: Container, ref: string) {
    c.id == ref || ShortId(c, ref) || Named(c, ref)
  }

  /** The reference in a network mode; None when it is of another kind or empty. */
  function Ref(networkMode: string): Option<string> {
    var r := CutPrefix(networkMode, NETMODE);
    if r.None? || TrimSpace(r.value) == "" then None else Some(TrimSpace(r.value))
  }

  // ---- the same in plain text -----------------------------------------------

  /** Docker stores names with a slash in front. */
  predicate HasName(c: Container, name: string) {
    "/" + name in c.names || (name in c.names && (name == "" || name[0] != '/'))
  }

  lemma StrippedExactly(name: string)
    ensures forall ref :: Stripped(name) == ref <==> name == "/" + ref || (name == ref && (ref == "" || ref[0] != '/'))
  {
    assert name != "" && name[0] == '/' ==> name == "/" + name[1..];
    assert "/" <= name <==> name != "" && name[0] == '/';
  }

  lemma NamedExactly(c: Container, ref: string)
    ensures Named(c, ref) <==> HasName(c, ref)
  {
    forall n | n in c.names {
      StrippedExactly(n);
    }
    hide Stripped;
    assert "/" + ref in c.names ==> Stripped("/" + ref) == ref;
  }

  lemma DenotesExactly(c: Container, ref: string)
    ensures Denotes(c, ref) <==>
            c.id == ref || (12 <= |ref| <= |c.id| && c.id[..|ref|] == ref) || HasName(c, ref)
  {
    NamedExactly(c, ref);
    hide Named, HasName;
  }

  /** A reference is what follows "container:", without the white space around it, unless nothing is left. */
  lemma RefExactly(mode: string, ref: string)
    ensures Ref(mode) == Some(ref) <==>
            ref != "" && Trimmed(ref) &&
            exists before, after :: AllSpace(before) && AllSpace(after) && mode == "container:" + (before + ref + after)
  {
    if before, after :| AllSpace(before) && AllSpace(after) && Trimmed(ref) &&
                        mode == "container:" + (before + ref + after) {
      CutPrefixOf("container:", before + ref + after);
      TrimSpaceDropsPads(before, ref, after);
    }
    if Ref(mode) == Some(ref) {
      var rest := mode[|NETMODE|..];
      var before, after := TrimSpaceShape(rest);
      assert mode == "container:" + (before + ref + after);
    }
    hide TrimSpace;
  }

  // ---- what the daemon guarantees ------------------------------------------

  /** 64-character distinct IDs, non-empty distinct names, and no name that reads as an ID. */
  ghost predicate Daemon(all: seq<Container>) {
    && (forall c | c in all :: |c.id| == 64)
    && (forall c, n | c in all && n in c.names :: Stripped(n) != "")
    && (forall c, d | c in all && d in all && c.id == d.id :: c == d)
    && (forall c, d, ref | c in all && d in all && Named(c, ref) && Named(d, ref) :: c == d)
    && (forall c, d, ref | c in all && d in all && Named(c, ref) :: d.id != ref && !ShortId(d, ref))
  }

  ghost predicate Unambiguous(all: seq<Container>, ref: string) {
    forall c, d | c in all && d in all && Denotes(c, ref) && Denotes(d, ref) :: c == d
  }

  ghost predicate SameContainers(a: seq<Container>, b: seq<Container>) {
    forall c :: c in a <==> c in b
  }

  /** Only an ID prefix can be ambiguous; a full ID or a name never is. */
  lemma AmbiguousOnlyAsPrefix(all: seq<Container>, ref: string)
    requires Daemon(all)
    ensures Unambiguous(all, ref) <==>
            (12 <= |ref| < 64 ==> forall c, d | c in all && d in all && HasPrefix(c.id, ref) &&
             HasPrefix(d.id, ref) :: c == d)
  {
    forall c, d | c in all && d in all && Denotes(c, ref) && Denotes(d, ref) && !(12 <= |ref| < 64)
      ensures c == d
    {
    }
    if 12 <= |ref| < 64 && Unambiguous(all, ref) {
      forall c, d | c in all && d in all && HasPrefix(c.id, ref) && HasPrefix(d.id, ref)
        ensures c == d
      {
        assert Denotes(c, ref) && Denotes(d, ref);
      }
    }
  }

  // ---- the resolvers ----------------------------------------------------------

  /** The first listed container that satisfies `p`. */
  function First(all: seq<Container>, p: Container -> bool): (r: Option<Container>)
    ensures r.Some? ==> r.value in all && p(r.value)
    ensures r.None? ==> forall c | c in all :: !p(c)
  {
    if all == [] then None else if p(all[0]) then Some(all[0]) else First(all[1..], p)
  }

  lemma {:induction false} FirstIs(all: seq<Container>, p: Container -> bool, i: nat)
    requires i < |all| && p(all[i]) && forall j | 0 <= j < i :: !p(all[j])
    ensures First(all, p) == Some(all[i])
  {
    if i > 0 {
      assert !p(all[0]);
      FirstIs(all[1..], p, i - 1);
    }
  }

  function ById(ref: string): Container -> bool {
    (c: Container) => c.id == ref
  }

  function ByPrefix(ref: string): Container -> bool {
    (c: Container) => HasPrefix(c.id, ref)
  }

  function ByName(ref: string): Container -> bool {
    (c: Container) => Named(c, ref)
  }

  function FirstName(names: seq<string>): string {
    if names == [] then "" else if names[0] != "" then Stripped(names[0]) else FirstName(names[1..])
  }

  /** The first name that is not empty, without its slash. */
  lemma {:induction false} FirstNameExactly(names: seq<string>, i: nat)
    requires i < |names| && names[i] != "" && forall j | 0 <= j < i :: names[j] == ""
    ensures names[i] == "/" + FirstName(names) || (names[i] == FirstName(names) && names[i][0] != '/')
  {
    if i == 0 {
      StrippedExactly(names[0]);
      hide Stripped;
    } else {
      assert names[0] == "";
      FirstNameExactly(names[1..], i - 1);
    }
  }

  /** dependents.refResolves: one pass, any form. */
  predicate RefResolves(ref: string, all: seq<Container>) {
    First(all, (c: Container) => c.id == ref || (12 <= |ref| < 64 && HasPrefix(c.id, ref)) || Named(c, ref)).Some?
  }

  /** autostart.saTargetsStaleNetns: one pass, any form, compared with the target. */
  predicate SaTargetsStaleNetns(networkMode: string, target: Container, all: seq<Container>) {
    Ref(networkMode).Some? &&
    var hit := First(all, (c: Container) => Denotes(c, Ref(networkMode).value));
    hit.None? || hit.value.id != target.id
  }

  /** wraprebinder.resolveTargetName: three passes; "" when nothing is found. */
  function ResolveTargetName(all: seq<Container>, ref: string): string {
    if First(all, ById(ref)).Some? then FirstName(First(all, ById(ref)).value.names)
    else if |ref| >= 12 && First(all, ByPrefix(ref)).Some? then FirstName(First(all, ByPrefix(ref)).value.names)
    else if First(all, ByName(ref)).Some? then ref
    else ""
  }

  /** wraprebinder.resolveContainerByName: three passes over IDs, prefixes and names. */
  function ResolveContainerByName(all: seq<Container>, name: string): string {
    var ref := Stripped(name);
    if ref == "" then ""
    else if First(all, ById(ref)).Some? then ref
    else if |ref| >= 12 && First(all, ByPrefix(ref)).Some? then First(all, ByPrefix(ref)).value.id
    else if First(all, ByName(ref)).Some? then First(all, ByName(ref)).value.id
    else ""
  }

  /** autostart.referencesFor: the strings a network mode is compared with. */
  method ReferencesFor(c: Container) returns (out: set<string>)
    ensures forall ref :: ref in out <==> Listed(c, ref)
  {
    out := {};
    if c.id != "" {
      out := out + {c.id};
      if |c.id| >= 12 {
        out := out + {c.id[..12]};
      }
    }
    ghost var ids := out;
    for i := 0 to |c.names|
      invariant forall ref :: ref in out <==> ref in ids || exists n | n in c.names[..i] :: Stripped(n) == ref
    {
      assert c.names[..i + 1] == c.names[..i] + [c.names[i]];
      out := out + {Stripped(c.names[i])};
    }
    assert c.names[..|c.names|] == c.names;
  }

  /** Full ID, 12-character ID, or a name. */
  predicate Listed(c: Container, ref: string) {
    || (c.id != "" && (ref == c.id || (|c.id| >= 12 && ref == c.id[..12])))
    || Named(c, ref)
  }

  /** The same with the names as Docker stores them. */
  predicate GoesBy(c: Container, ref: string) {
    (c.id != "" && (ref == c.id || (|c.id| >= 12 && ref == c.id[..12]))) || HasName(c, ref)
  }

  lemma ListedIsGoesBy(c: Container, ref: string)
    ensures Listed(c, ref) <==> GoesBy(c, ref)
  {
    NamedExactly(c, ref);
    hide Named, HasName;
  }

  // ---- they agree -----------------------------------------------------------------

  /** Slash-free, as resolveContainerByName strips one from what it is given. */
  predicate SlashFree(ref: string) {
    '/' !in ref
  }

  lemma StrippedAlready(ref: string)
    requires SlashFree(ref)
    ensures Stripped(ref) == ref
  {
    if "/" <= ref {
      SlashHead(ref);
    }
  }

  lemma SlashHead(ref: string)
    requires "/" <= ref
    ensures '/' in ref
  {
    assert ref[0] == "/"[0];
  }

  /** All resolvers find `c`, the one container that `ref` denotes, wherever it is listed. */
  lemma ResolversFind(all: seq<Container>, ref: string, c: Container)
    requires Daemon(all) && SlashFree(ref) && Unambiguous(all, ref) && c in all && Denotes(c, ref)
    ensures RefResolves(ref, all)
    ensures ResolveContainerByName(all, ref) == ResolveContainerByName(all, "/" + ref) == c.id
    ensures ResolveTargetName(all, ref) == if Named(c, ref) then ref else FirstName(c.names)
    ensures forall mode, target | Ref(mode) == Some(ref) :: SaTargetsStaleNetns(mode, target, all) <==>
            c.id != target.id
  {
    StrippedAlready(ref);
    StrippedExactly("/" + ref);
    OnlyHit(all, ref, c);
    assert ById(ref)(c) || (|ref| >= 12 && ByPrefix(ref)(c)) || ByName(ref)(c);
  }

  /** What any of the three passes hits, the reference denotes. */
  lemma PassesDenote(all: seq<Container>, ref: string)
    ensures First(all, ById(ref)).Some? ==> Denotes(First(all, ById(ref)).value, ref)
    ensures |ref| >= 12 && First(all, ByPrefix(ref)).Some? ==> Denotes(First(all, ByPrefix(ref)).value, ref)
    ensures First(all, ByName(ref)).Some? ==> Denotes(First(all, ByName(ref)).value, ref)
  {
    var hit := First(all, ByPrefix(ref));
    assert |ref| >= 12 && hit.Some? ==> ShortId(hit.value, ref);
  }

  /** Anything a search comes back with is `c`. */
  lemma OnlyHit(all: seq<Container>, ref: string, c: Container)
    requires Daemon(all) && Unambiguous(all, ref) && c in all && Denotes(c, ref)
    ensures First(all, ById(ref)).Some? ==> First(all, ById(ref)).value == c
    ensures |ref| >= 12 && First(all, ByPrefix(ref)).Some? ==> First(all, ByPrefix(ref)).value == c
    ensures First(all, ByName(ref)).Some? ==> First(all, ByName(ref)).value == c
    ensures Named(c, ref) ==> First(all, ById(ref)).None? && (|ref| >= 12 ==> First(all, ByPrefix(ref)).None?)
  {
    PassesDenote(all, ref);
  }

  /** No resolver finds anything when no container is denoted. */
  lemma ResolversMiss(all: seq<Container>, ref: string)
    requires Daemon(all) && SlashFree(ref) && forall c | c in all :: !Denotes(c, ref)
    ensures !RefResolves(ref, all)
    ensures ResolveContainerByName(all, ref) == "" && ResolveTargetName(all, ref) == ""
    ensures forall mode, target | Ref(mode) == Some(ref) :: SaTargetsStaleNetns(mode, target, all)
  {
    StrippedAlready(ref);
    PassesDenote(all, ref);
  }

  /** The single-pass scan needs no disambiguation to say whether anything is denoted at all. */
  lemma RefResolvesIff(all: seq<Container>, ref: string)
    requires forall c | c in all :: |c.id| == 64
    ensures RefResolves(ref, all) <==> exists c :: c in all && Denotes(c, ref)
  {
  }

  /** However the daemon orders its answer, the single-pass comparison with any target comes out the same. */
  ghost predicate OrderIrrelevant(all: seq<Container>, mode: string) {
    forall a, target | multiset(a) == multiset(all) ::
      SaTargetsStaleNetns(mode, target, a) == SaTargetsStaleNetns(mode, target, all)
  }

  /** The order of the daemon's answer never matters exactly when the reference is unambiguous. */
  lemma OrderIrrelevantIffUnambiguous(all: seq<Container>, mode: string)
    requires Daemon(all) && Ref(mode).Some?
    ensures Unambiguous(all, Ref(mode).value) <==> OrderIrrelevant(all, mode)
  {
    var ref := Ref(mode).value;
    if Unambiguous(all, ref) {
      forall a, target | multiset(a) == multiset(all)
        ensures SaTargetsStaleNetns(mode, target, a) == SaTargetsStaleNetns(mode, target, all)
      {
        forall c ensures c in a <==> c in all {
          assert c in multiset(a) <==> c in multiset(all);
        }
        SameHit(a, all, ref);
      }
    } else {
      var c, d :| c in all && d in all && Denotes(c, ref) && Denotes(d, ref) && c != d;
      OrderDecides(all, mode, c, d);
    }
  }

  lemma SameHit(a: seq<Container>, b: seq<Container>, ref: string)
    requires SameContainers(a, b) && Unambiguous(b, ref)
    ensures First(a, (c: Container) => Denotes(c, ref)) == First(b, (c: Container) => Denotes(c, ref))
  {
    var p := (c: Container) => Denotes(c, ref);
    var x, y := First(a, p), First(b, p);
    assert x.Some? ==> x.value in b;
    assert y.Some? ==> y.value in a;
  }

  /** The same listing with `c` in front. */
  lemma InFront(all: seq<Container>, c: Container) returns (a: seq<Container>)
    requires c in all
    ensures multiset(a) == multiset(all) && a != [] && a[0] == c
  {
    var i :| 0 <= i < |all| && all[i] == c;
    a := [c] + (all[..i] + all[i + 1..]);
    assert all == all[..i] + ([c] + all[i + 1..]);
    assert multiset(all) == multiset(all[..i]) + (multiset{c} + multiset(all[i + 1..]));
  }

  /** Of two containers that a reference denotes, the one listed first wins. */
  lemma OrderDecides(all: seq<Container>, mode: string, c: Container, d: Container)
    requires Daemon(all) && Ref(mode).Some? && c in all && d in all && c != d
    requires Denotes(c, Ref(mode).value) && Denotes(d, Ref(mode).value)
    ensures !OrderIrrelevant(all, mode)
  {
    var cs := InFront(all, c);
    var ds := InFront(all, d);
    hide Denotes, Ref;
    assert !SaTargetsStaleNetns(mode, c, cs);
    assert SaTargetsStaleNetns(mode, c, ds);
  }

  lemma TrimmedIsTrim(s: string)
    requires Trimmed(s)
    ensures TrimSpace(s) == s
  {
    TrimSpaceDropsPads("", s, "");
    assert "" + s + "" == s;
  }

  /** referencesFor against Docker's reading: it knows full IDs, 12-character IDs and names, no prefix in between. */
  lemma ListedExactly(c: Container, ref: string)
    requires |c.id| == 64
    ensures Listed(c, ref) <==> Denotes(c, ref) && (Named(c, ref) || |ref| == 12 || |ref| == 64)
  {
    if HasPrefix(c.id, ref) {
      assert ref == c.id[..|ref|];
      if |ref| == 64 {
        assert c.id[..64] == c.id;
      }
    }
  }
}
