/** The forms in which event types, extensions and paths are accepted and stored. */
module Schemas {
  import opened Types
  import opened Paths
  import opened Normalize

  // ---- event types ------------------------------------------------------------------------

  function NameOf(t: FsEventType): string {
    match t
    case Created => "created"
    case MovedTo => "moved_to"
    case Deleted => "deleted"
    case MovedFrom => "moved_from"
  }

  function TypeNamed(name: string): Option<FsEventType> {
    if name == "created" then Some(Created)
    else if name == "moved_to" then Some(MovedTo)
    else if name == "deleted" then Some(Deleted)
    else if name == "moved_from" then Some(MovedFrom)
    else None
  }

  function Names(types: seq<FsEventType>): (names: seq<string>)
    ensures |names| == |types| && forall i :: 0 <= i < |types| ==> names[i] == NameOf(types[i])
  {
    if types == [] then [] else [NameOf(types[0])] + Names(types[1..])
  }

  function SerializeEventTypes(types: seq<FsEventType>): string {
    Join(Names(types), ',')
  }

  /** The types named, empty pieces aside; none if some piece names no type. */
  function TypesNamed(pieces: seq<string>): Option<set<FsEventType>> {
    if pieces == [] then Some({})
    else
      var rest := TypesNamed(pieces[1..]);
      if pieces[0] == "" then rest
      else if rest.None? || TypeNamed(pieces[0]).None? then None
      else Some(rest.value + {TypeNamed(pieces[0]).value})
  }

  function ParseEventTypes(raw: string): Option<set<FsEventType>> {
    TypesNamed(Split(raw, ','))
  }

  lemma {:induction false} TypesNamedExact(pieces: seq<string>)
    ensures TypesNamed(pieces).Some? <==> forall p :: p in pieces ==> p == "" || TypeNamed(p).Some?
    ensures TypesNamed(pieces).Some? ==> forall t :: t in TypesNamed(pieces).value <==> NameOf(t) in pieces
  {
    if pieces != [] {
      TypesNamedExact(pieces[1..]);
      assert pieces == [pieces[0]] + pieces[1..];
    }
  }

  lemma {:induction false} NameIsRead(t: FsEventType)
    ensures NameOf(t) != "" && ',' !in NameOf(t) && TypeNamed(NameOf(t)) == Some(t)
  {
  }

  lemma {:induction false} NamesAreRead(types: seq<FsEventType>)
    ensures TypesNamed(Names(types)) == Some(set t | t in types)
  {
    if types == [] {
      assert (set t | t in types) == {};
    } else {
      NamesAreRead(types[1..]);
      NameIsRead(types[0]);
      assert Names(types)[1..] == Names(types[1..]);
      assert types == [types[0]] + types[1..];
      assert (set t | t in types) == (set t | t in types[1..]) + {types[0]};
    }
  }

  /** Whatever list of types is written, its set is read back. */
  lemma {:induction false} EventTypesRoundTrip(types: seq<FsEventType>)
    ensures ParseEventTypes(SerializeEventTypes(types)) == Some(set t | t in types)
  {
    if types == [] {
      SplitWhole("", ',');
      assert TypesNamed([""]) == Some({});
      assert (set t | t in types) == {};
    } else {
      forall i | 0 <= i < |types| ensures ',' !in Names(types)[i] { NameIsRead(types[i]); }
      SplitJoin(Names(types), ',');
      NamesAreRead(types);
    }
  }

  const ALL_TYPES := [Created, MovedTo, Deleted, MovedFrom]

  /** The text that a migrated row gets stands for all types, in their order. */
  lemma {:induction false} AllTypesText()
    ensures SerializeEventTypes(ALL_TYPES) == "created,moved_to,deleted,moved_from"
    ensures ParseEventTypes("created,moved_to,deleted,moved_from") == Some({Created, MovedTo, Deleted, MovedFrom})
  {
    AllNames();
    EventTypesRoundTrip(ALL_TYPES);
    AllElements();
  }

  lemma {:induction false} AllNames()
    ensures Join(Names(ALL_TYPES), ',') == "created,moved_to,deleted,moved_from"
  {
    var names := Names(ALL_TYPES);
    FourJoined(names);
    assert names[0] == "created" && names[1] == "moved_to" && names[2] == "deleted" && names[3] == "moved_from";
    assert "created" + "," + "moved_to" + "," + "deleted" + "," + "moved_from" == "created,moved_to,deleted,moved_from";
  }

  lemma {:induction false} AllElements()
    ensures (set t | t in ALL_TYPES) == {Created, MovedTo, Deleted, MovedFrom}
  {
    assert ALL_TYPES[0] == Created && ALL_TYPES[1] == MovedTo && ALL_TYPES[2] == Deleted && ALL_TYPES[3] == MovedFrom;
  }

  lemma {:induction false} FourJoined(names: seq<string>)
    requires |names| == 4
    ensures Join(names, ',') == names[0] + "," + names[1] + "," + names[2] + "," + names[3]
  {
    assert names[1..][1..] == names[2..] && names[2..][1..] == names[3..];
    assert Join(names[3..], ',') == names[3];
    assert Join(names[2..], ',') == names[2] + [','] + names[3];
    assert Join(names[1..], ',') == names[1] + [','] + (names[2] + [','] + names[3]);
  }

  // ---- extensions -------------------------------------------------------------------------

  function Normalized(extensions: seq<string>, lower: char -> char): (r: seq<string>)
    ensures |r| == |extensions|
  {
    seq(|extensions|, i requires 0 <= i < |extensions| => NormalizeExtension(extensions[i], lower))
  }

  /** Every nonempty string of the list, at the place of its first occurrence. */
  function Deduped(s: seq<string>): seq<string> {
    if |s| == 0 then [] else WithNew(Deduped(s[..|s| - 1]), s[|s| - 1])
  }

  function WithNew(out: seq<string>, norm: string): seq<string> {
    if norm == "" || norm in out then out else out + [norm]
  }

  predicate Distinct(s: seq<string>) {
    forall i, j :: 0 <= i < j < |s| ==> s[i] != s[j]
  }

  lemma {:induction false} DedupedExact(s: seq<string>)
    ensures Distinct(Deduped(s))
    ensures forall x :: x in Deduped(s) <==> x != "" && x in s
  {
    if |s| > 0 {
      DedupedExact(s[..|s| - 1]);
      assert s == s[..|s| - 1] + [s[|s| - 1]];
    }
  }

  /** First occurrences stay first: a longer list only adds at the end. */
  lemma {:induction false} DedupedExtends(s: seq<string>, more: seq<string>)
    ensures Deduped(s) <= Deduped(s + more)
  {
    if more == [] {
      assert s + more == s;
    } else {
      DedupedExtends(s, more[..|more| - 1]);
      assert (s + more)[..|s + more| - 1] == s + more[..|more| - 1];
    }
  }

  lemma {:induction false} DedupedNext(s: seq<string>, i: nat)
    requires i < |s|
    ensures Deduped(s[..i + 1]) == WithNew(Deduped(s[..i]), s[i])
  {
    assert s[..i + 1][..i] == s[..i];
  }

  method Add(out: seq<string>, norm: string) returns (more: seq<string>)
    ensures more == WithNew(out, norm)
  {
    more := out;
    if norm != "" && norm !in out {
      more := more + [norm];
    }
  }

  method NormalizeExtensions(value: seq<string>, lower: char -> char) returns (out: seq<string>)
    ensures out == Deduped(Normalized(value, lower))
  {
    out := [];
    ghost var all := Normalized(value, lower);
    for i := 0 to |value|
      invariant out == Deduped(all[..i])
    {
      DedupedNext(all, i);
      out := Add(out, NormalizeExtension(value[i], lower));
    }
    assert all[..|value|] == all;
  }

  // ---- folders ----------------------------------------------------------------------------

  /** A folder that passed validation. */
  datatype FolderCreate = FolderCreate(path: string, libraryId: Option<string>, extensions: seq<string>, enabled: bool)

  predicate IsAbsolute(path: string) {
    StartsWith(path, "/")
  }

  lemma {:induction false} AbsoluteByRoot(s: string)
    ensures IsAbsolute(s) <==> Root(s) != ""
  {
    assert s != "" ==> s[..1] == [s[0]];
  }

  /** A form's folder, normalized, or nothing if its path is not absolute. */
  method ValidateFolder(path: string, libraryId: Option<string>, extensions: seq<string>, enabled: bool, lower: char -> char)
    returns (folder: Option<FolderCreate>)
    ensures folder.Some? <==> IsAbsolute(Strip(path))
    ensures folder.Some? ==>
              folder == Some(FolderCreate(NormalizePath(path), libraryId, Deduped(Normalized(extensions, lower)), enabled))
  {
    var normalized := NormalizePath(path);
    NormPathParts(Strip(path));
    AbsoluteByRoot(Strip(path));
    AbsoluteByRoot(normalized);
    if !IsAbsolute(normalized) {
      return None;
    }
    var exts := NormalizeExtensions(extensions, lower);
    folder := Some(FolderCreate(normalized, libraryId, exts, enabled));
  }
}
