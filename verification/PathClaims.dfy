/** Owned-path claims: canonical form, and exclusivity of the path trees they name. */
module PathClaims {
  import opened Wrappers

  // ---- Segments of a path ----

  predicate Slash(c: char) { c == '/' }

  predicate SlashOrBackslash(c: char) { c == '/' || c == '\\' }

  /** The pieces between separators; n separators give n + 1 pieces. */
  function Split(path: string, separator: char -> bool): (segments: seq<string>)
    ensures segments != []
  {
    if path == "" then [""]
    else
      var rest := Split(path[1..], separator);
      if separator(path[0]) then [""] + rest
      else [[path[0]] + rest[0]] + rest[1..]
  }

  function Join(segments: seq<string>): string {
    if segments == [] then ""
    else if |segments| == 1 then segments[0]
    else segments[0] + "/" + Join(segments[1..])
  }

  function Segments(path: string): (segments: seq<string>)
    ensures segments != []
  {
    Split(path, Slash)
  }

  lemma {:induction false} JoinSegments(path: string)
    ensures Join(Segments(path)) == path
  {
    if path != "" {
      JoinSegments(path[1..]);
      var rest := Segments(path[1..]);
      if path[0] == '/' {
        assert Segments(path)[1..] == rest;
      } else {
        assert Segments(path)[1..] == rest[1..];
      }
    }
  }

  lemma SegmentsCons(path: string)
    requires path != ""
    ensures var rest := Segments(path[1..]);
      Segments(path) == if path[0] == '/' then [""] + rest else [[path[0]] + rest[0]] + rest[1..]
  {
  }

  lemma FirstOfBoth(c: char, first: seq<string>, rest: seq<string>)
    requires first != []
    ensures [""] + (first + rest) == [""] + first + rest
    ensures [[c] + (first + rest)[0]] + (first + rest)[1..] == [[c] + first[0]] + first[1..] + rest
  {
    assert (first + rest)[1..] == first[1..] + rest;
  }

  lemma {:induction false} SegmentsAppend(left: string, right: string)
    ensures Segments(left + "/" + right) == Segments(left) + Segments(right)
  {
    assert Segments("") == [""];
    hide Segments;
    var whole := left + "/" + right;
    SegmentsCons(whole);
    if left == "" {
      assert whole[1..] == right;
    } else {
      SegmentsAppend(left[1..], right);
      assert whole[1..] == left[1..] + "/" + right;
      SegmentsCons(left);
      FirstOfBoth(left[0], Segments(left[1..]), Segments(right));
    }
  }

  lemma {:induction false} JoinAppend(left: seq<string>, right: seq<string>)
    requires left != [] && right != []
    ensures Join(left + right) == Join(left) + "/" + Join(right)
  {
    assert (left + right)[1..] == left[1..] + right;
    if |left| > 1 {
      JoinAppend(left[1..], right);
    } else {
      assert (left + right)[1..] == right;
    }
  }

  predicate StartsWith(s: string, prefix: string) {
    prefix <= s
  }

  /** The string test for "strictly below" agrees with the segment order. */
  lemma StartsWithIsSegmentPrefix(path: string, ancestor: string)
    ensures StartsWith(path, ancestor + "/") <==> Segments(ancestor) < Segments(path)
  {
    if StartsWith(path, ancestor + "/") {
      var rest := path[|ancestor| + 1..];
      assert path == ancestor + "/" + rest;
      SegmentsAppend(ancestor, rest);
    }
    if Segments(ancestor) < Segments(path) {
      var rest := Segments(path)[|Segments(ancestor)|..];
      assert Segments(path) == Segments(ancestor) + rest;
      JoinAppend(Segments(ancestor), rest);
      JoinSegments(path);
      JoinSegments(ancestor);
    }
  }

  /** The conflict test applied to two comparison keys. */
  predicate Overlaps(key: string, existing: string) {
    key == existing || StartsWith(key, existing + "/") || StartsWith(existing, key + "/")
  }

  /** A location lies in the tree of a path when it extends its segments. */
  ghost predicate InTree(location: seq<string>, path: string) {
    Segments(path) <= location
  }

  /** Two keys pass the test exactly when no location lies in both trees. */
  lemma OverlapsIffTreesMeet(left: string, right: string)
    ensures Overlaps(left, right) <==> exists location: seq<string> :: InTree(location, left) && InTree(location, right)
  {
    StartsWithIsSegmentPrefix(left, right);
    StartsWithIsSegmentPrefix(right, left);
    if Overlaps(left, right) {
      var deeper := if Segments(right) <= Segments(left) then Segments(left) else Segments(right);
      assert InTree(deeper, left) && InTree(deeper, right);
    }
    if location: seq<string> :| InTree(location, left) && InTree(location, right) {
      if |Segments(left)| == |Segments(right)| {
        JoinSegments(left);
        JoinSegments(right);
        assert Segments(left) == location[..|Segments(left)|] == Segments(right);
      } else if |Segments(left)| < |Segments(right)| {
        assert Segments(left) == location[..|Segments(right)|][..|Segments(left)|];
      } else {
        assert Segments(right) == location[..|Segments(left)|][..|Segments(right)|];
      }
    }
  }

  // ---- Canonical form ----

  /** Resolution of "", "." and ".." segments, as path.posix.normalize does it. */
  function Resolve(stack: seq<string>, segments: seq<string>, allowAboveRoot: bool): seq<string>
    decreases |segments|
  {
    if segments == [] then stack
    else if segments[0] == "" || segments[0] == "." then Resolve(stack, segments[1..], allowAboveRoot)
    else if segments[0] == ".." then
      if stack != [] && stack[|stack| - 1] != ".." then Resolve(stack[..|stack| - 1], segments[1..], allowAboveRoot)
      else Resolve(if allowAboveRoot then stack + [".."] else stack, segments[1..], allowAboveRoot)
    else Resolve(stack + [segments[0]], segments[1..], allowAboveRoot)
  }

  predicate EndsWith(s: string, c: char) {
    s != "" && s[|s| - 1] == c
  }

  function Normalize(path: string): string {
    if path == "" then "."
    else
      var absolute := path[0] == '/';
      var trailing := EndsWith(path, '/');
      var resolved := Join(Resolve([], Segments(path), !absolute));
      if resolved == "" then if absolute then "/" else if trailing then "./" else "."
      else (if absolute then "/" else "") + resolved + if trailing then "/" else ""
  }

  function CanonicalizeOwnedPath(owned: string): Option<string> {
    if owned == "" || owned[0] == '/' || ".." in Split(owned, SlashOrBackslash) then None
    else if Normalize(owned) != owned || owned == "." || '\\' in owned || EndsWith(owned, '/') then None
    else Some(owned)
  }

  predicate PlainSegment(segment: string) {
    segment != "" && segment != "." && segment != ".."
  }

  /** What the chain of string tests amounts to. */
  ghost predicate Plain(path: string) {
    '\\' !in path && forall segment :: segment in Segments(path) ==> PlainSegment(segment)
  }

  lemma {:induction false} SplitWithoutBackslash(path: string)
    requires '\\' !in path
    ensures Split(path, SlashOrBackslash) == Segments(path)
  {
    if path != "" {
      SplitWithoutBackslash(path[1..]);
    }
  }

  lemma {:induction false} TrailingSlash(path: string)
    requires EndsWith(path, '/')
    ensures "" in Segments(path)
  {
    assert path == path[..|path| - 1] + "/" + "";
    SegmentsAppend(path[..|path| - 1], "");
    assert Segments(path)[|Segments(path)| - 1] == "";
  }

  function Kept(segments: seq<string>): seq<string> {
    if segments == [] then []
    else (if segments[0] == "" || segments[0] == "." then [] else [segments[0]]) + Kept(segments[1..])
  }

  lemma {:induction false} ResolveWithoutParents(stack: seq<string>, segments: seq<string>, allowAboveRoot: bool)
    requires ".." !in segments
    ensures Resolve(stack, segments, allowAboveRoot) == stack + Kept(segments)
    decreases |segments|
  {
    if segments != [] {
      var next := if segments[0] == "" || segments[0] == "." then stack else stack + [segments[0]];
      ResolveWithoutParents(next, segments[1..], allowAboveRoot);
    }
  }

  function Weight(segments: seq<string>): nat {
    if segments == [] then 0 else 1 + |segments[0]| + Weight(segments[1..])
  }

  lemma {:induction false} JoinLength(segments: seq<string>)
    requires segments != []
    ensures |Join(segments)| + 1 == Weight(segments)
  {
    if |segments| > 1 {
      JoinLength(segments[1..]);
    }
  }

  lemma {:induction false} KeptWeight(segments: seq<string>)
    ensures Weight(Kept(segments)) <= Weight(segments)
    ensures Weight(Kept(segments)) == Weight(segments) ==>
      Kept(segments) == segments && "" !in segments && "." !in segments
    ensures "" !in segments && "." !in segments ==> Kept(segments) == segments
  {
    if segments != [] {
      KeptWeight(segments[1..]);
      var rest := Kept(segments[1..]);
      if !(segments[0] == "" || segments[0] == ".") {
        assert ([segments[0]] + rest)[1..] == rest;
      } else {
        assert Kept(segments) == rest;
      }
    }
  }

  lemma NotPlain(owned: string, segment: string)
    requires segment in Segments(owned) && !PlainSegment(segment)
    ensures !Plain(owned)
  {
  }

  /** Without parent segments and outer slashes, normalising changes nothing exactly when every segment is kept. */
  lemma NormalizeKeeps(owned: string)
    requires owned != "" && owned[0] != '/' && !EndsWith(owned, '/') && owned != "." && ".." !in Segments(owned)
    ensures Normalize(owned) == owned <==> "" !in Segments(owned) && "." !in Segments(owned)
  {
    assert Join([]) == "";
    hide Split, Join, Kept, Weight, Resolve;
    var segments := Segments(owned);
    JoinSegments(owned);
    ResolveWithoutParents([], segments, true);
    assert [] + Kept(segments) == Kept(segments);
    KeptWeight(segments);
    JoinLength(segments);
    if Kept(segments) != [] {
      JoinLength(Kept(segments));
    }
  }

  /** The tests accept a path exactly when every segment is an ordinary name. */
  lemma CanonicalIffPlain(owned: string)
    ensures CanonicalizeOwnedPath(owned) == Some(owned) <==> Plain(owned)
    ensures CanonicalizeOwnedPath(owned) in {None, Some(owned)}
  {
    if '\\' !in owned {
      SplitWithoutBackslash(owned);
      if owned == "" || owned[0] == '/' {
        assert Segments(owned)[0] == "";
        NotPlain(owned, "");
      } else if EndsWith(owned, '/') {
        TrailingSlash(owned);
        NotPlain(owned, "");
      } else if owned == "." {
        assert owned[1..] == "" && Segments("") == [""];
        assert Segments(owned)[0] == ".";
        NotPlain(owned, ".");
      } else if ".." in Segments(owned) {
        NotPlain(owned, "..");
      } else {
        NormalizeKeeps(owned);
        if "" in Segments(owned) {
          NotPlain(owned, "");
        } else if "." in Segments(owned) {
          NotPlain(owned, ".");
        }
      }
    }
  }

  // ---- Exclusive claims ----

  datatype Claim = Claim(ownerId: string, paths: seq<string>)

  datatype Owned = Owned(path: string, owner: string)

  datatype ClaimError =
    | InvalidPath
    | Conflict(owner: string, claimant: string)

  function OwnedBy(owner: string, paths: seq<string>): seq<Owned> {
    seq(|paths|, i requires 0 <= i < |paths| => Owned(paths[i], owner))
  }

  /** Every claimed path with its owner, in the order the loops visit them. */
  function Flatten(claims: seq<Claim>): seq<Owned> {
    if claims == [] then []
    else Flatten(claims[..|claims| - 1]) + OwnedBy(claims[|claims| - 1].ownerId, claims[|claims| - 1].paths)
  }

  ghost predicate Exclusive(owned: seq<Owned>, lower: string -> string) {
    && (forall i :: 0 <= i < |owned| ==> CanonicalizeOwnedPath(owned[i].path).Some?)
    && (forall i, j :: 0 <= i < j < |owned| ==> !Overlaps(lower(owned[j].path), lower(owned[i].path)))
  }

  /** The error is about the first claim that is invalid or meets an earlier one, and names the first owner it meets. */
  ghost predicate Explains(error: ClaimError, owned: seq<Owned>, k: nat, lower: string -> string) {
    && k < |owned|
    && Exclusive(owned[..k], lower)
    && match error
       case InvalidPath => CanonicalizeOwnedPath(owned[k].path).None?
       case Conflict(owner, claimant) =>
         && CanonicalizeOwnedPath(owned[k].path).Some?
         && claimant == owned[k].owner
         && exists i :: 0 <= i < k && owner == owned[i].owner
              && Overlaps(lower(owned[k].path), lower(owned[i].path))
              && forall h :: 0 <= h < i ==> !Overlaps(lower(owned[k].path), lower(owned[h].path))
  }

  /** The search over the claimed map: the first recorded key the new one meets. */
  method FirstOverlap(claimed: seq<(string, string)>, key: string) returns (found: Option<nat>)
    ensures found.None? ==> forall h :: 0 <= h < |claimed| ==> !Overlaps(key, claimed[h].0)
    ensures found.Some? ==>
      && found.value < |claimed| && Overlaps(key, claimed[found.value].0)
      && forall h :: 0 <= h < found.value ==> !Overlaps(key, claimed[h].0)
  {
    for i := 0 to |claimed|
      invariant forall h :: 0 <= h < i ==> !Overlaps(key, claimed[h].0)
    {
      if Overlaps(key, claimed[i].0) {
        return Some(i);
      }
    }
    return None;
  }

  lemma ConflictFound(claimed: seq<(string, string)>, all: seq<Owned>, k: nat, i: nat, lower: string -> string)
    requires i < k < |all| && Exclusive(all[..k], lower) && Records(claimed, all[..k], lower)
    requires CanonicalizeOwnedPath(all[k].path).Some? && Overlaps(lower(all[k].path), claimed[i].0)
    requires forall h :: 0 <= h < i ==> !Overlaps(lower(all[k].path), claimed[h].0)
    ensures Explains(Conflict(claimed[i].1, all[k].owner), all, k, lower)
  {
    assert claimed[i] == (lower(all[i].path), all[i].owner);
    assert forall h :: 0 <= h < i ==> claimed[h].0 == lower(all[h].path);
  }

  lemma ExclusiveStep(claimed: seq<(string, string)>, visited: seq<Owned>, next: Owned, lower: string -> string)
    requires Exclusive(visited, lower) && Records(claimed, visited, lower)
    requires CanonicalizeOwnedPath(next.path).Some?
    requires forall h :: 0 <= h < |claimed| ==> !Overlaps(lower(next.path), claimed[h].0)
    ensures Exclusive(visited + [next], lower)
    ensures Records(claimed + [(lower(next.path), next.owner)], visited + [next], lower)
  {
    forall h | 0 <= h < |visited| ensures !Overlaps(lower(next.path), lower(visited[h].path)) {
      assert claimed[h].0 == lower(visited[h].path);
    }
  }

  lemma InvalidFound(all: seq<Owned>, k: nat, lower: string -> string)
    requires k < |all| && Exclusive(all[..k], lower) && CanonicalizeOwnedPath(all[k].path).None?
    ensures Explains(InvalidPath, all, k, lower)
  {
  }

  /** A claim that explains an error rules exclusivity out. */
  lemma ExplainsRefutes(error: ClaimError, owned: seq<Owned>, k: nat, lower: string -> string)
    requires Explains(error, owned, k, lower)
    ensures !Exclusive(owned, lower)
  {
  }

  lemma NothingClaimed(lower: string -> string)
    ensures Flatten([]) == [] && Exclusive([], lower) && Records([], [], lower)
  {
  }

  method AssertExclusivePathClaims(claims: seq<Claim>, lower: string -> string) returns (error: Option<ClaimError>)
    ensures error.None? <==> Exclusive(Flatten(claims), lower)
    ensures error.Some? ==> exists k :: Explains(error.value, Flatten(claims), k, lower)
  {
    hide CanonicalizeOwnedPath, Overlaps, Flatten, Exclusive, Explains;
    var claimed: seq<(string, string)> := [];
    ghost var all := Flatten(claims);
    NothingClaimed(lower);
    assert claims[..0] == [] && all[..0] == [];
    ghost var k := 0;
    for e := 0 to |claims|
      invariant k <= |all| && all[..k] == Flatten(claims[..e])
      invariant Exclusive(all[..k], lower) && Records(claimed, all[..k], lower)
    {
      var entry := claims[e];
      ghost var start := k;
      FlattenEntry(claims, e, start);
      for p := 0 to |entry.paths|
        invariant k == start + p <= |all|
        invariant forall q :: 0 <= q < |entry.paths| ==> start + q < |all| && all[start + q] == Owned(entry.paths[q], entry.ownerId)
        invariant Exclusive(all[..k], lower) && Records(claimed, all[..k], lower)
      {
        var owned := entry.paths[p];
        assert all[k] == Owned(owned, entry.ownerId);
        if CanonicalizeOwnedPath(owned).None? {
          InvalidFound(all, k, lower);
          ExplainsRefutes(InvalidPath, all, k, lower);
          return Some(InvalidPath);
        }
        var key := lower(owned);
        var met := FirstOverlap(claimed, key);
        if met.Some? {
          ConflictFound(claimed, all, k, met.value, lower);
          error := Some(Conflict(claimed[met.value].1, entry.ownerId));
          ExplainsRefutes(error.value, all, k, lower);
          return;
        }
        ExclusiveStep(claimed, all[..k], all[k], lower);
        claimed := claimed + [(key, entry.ownerId)];
        assert all[..k + 1] == all[..k] + [all[k]];
        k := k + 1;
      }
      FlattenEntry(claims, e, start);
    }
    assert claims[..|claims|] == claims;
    assert all[..k] == all;
    return None;
  }

  /** The claimed map, in insertion order, holds the key and owner of every visited path. */
  ghost predicate Records(claimed: seq<(string, string)>, visited: seq<Owned>, lower: string -> string) {
    && |claimed| == |visited|
    && forall i :: 0 <= i < |visited| ==> claimed[i] == (lower(visited[i].path), visited[i].owner)
  }

  lemma {:induction false} FlattenPrefix(claims: seq<Claim>, n: nat)
    requires n <= |claims|
    ensures Flatten(claims[..n]) <= Flatten(claims)
    decreases |claims| - n
  {
    if n == |claims| {
      assert claims[..n] == claims;
    } else {
      assert claims[..n + 1][..n] == claims[..n];
      FlattenPrefix(claims, n + 1);
    }
  }

  /** Where one owner's paths stand in the flattened list. */
  lemma FlattenEntry(claims: seq<Claim>, e: nat, start: nat)
    requires e < |claims| && start == |Flatten(claims[..e])|
    ensures start + |claims[e].paths| <= |Flatten(claims)|
    ensures forall q :: 0 <= q < |claims[e].paths| ==>
      Flatten(claims)[start + q] == Owned(claims[e].paths[q], claims[e].ownerId)
    ensures Flatten(claims)[..start + |claims[e].paths|] == Flatten(claims[..e + 1])
  {
    assert claims[..e + 1][..e] == claims[..e];
    FlattenPrefix(claims, e + 1);
    var block := OwnedBy(claims[e].ownerId, claims[e].paths);
    assert Flatten(claims[..e + 1]) == Flatten(claims[..e]) + block;
    forall q | 0 <= q < |claims[e].paths|
      ensures Flatten(claims)[start + q] == Owned(claims[e].paths[q], claims[e].ownerId)
    {
      assert Flatten(claims[..e + 1])[start + q] == block[q];
    }
  }
}
