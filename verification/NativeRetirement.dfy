/**
  Write-ahead deletion of a scratch directory: the inventory and the identity of
  the directory are recorded as an intent, then every entry is deleted, longest
  key first, and any later start resumes what a killed one left.

  A key is a path relative to the directory; the key of a directory ends in '/'.
  A digest is injective, so an entry carries the content that it stands for.
*/
module NativeRetirement {
  import opened CrashModel
  import opened Wrappers

  datatype Entry =
    | Folder
    | File(content: string)
    | Seal(project: string, files: map<string, Entry>)

  type Inventory = map<string, Entry>

  datatype Directory = Directory(identity: string, entries: Inventory)

  datatype Intent = Intent(project: string, name: string, identity: string, files: Inventory)

  /** The state directory: transaction.json, retirement.json and the scratch directories. */
  datatype Disk = Disk(publishing: bool, intent: Option<Intent>, directories: map<string, Directory>)

  const SEAL := "scratch.json"

  // ------------------------------------------------------------------ checks

  predicate IsFolderKey(key: string) {
    |key| > 0 && key[|key| - 1] == '/'
  }

  function Components(path: string): (parts: seq<string>)
    ensures |parts| > 0
  {
    if path == "" then [""]
    else
      var rest := Components(path[1..]);
      if path[0] == '/' then [""] + rest else [[path[0]] + rest[0]] + rest[1..]
  }

  predicate SafeKey(key: string) {
    var relative := if IsFolderKey(key) then key[..|key| - 1] else key;
    && relative != "" && '\\' !in relative && ':' !in relative
    && forall part :: part in Components(relative) ==> part != "" && part != "." && part != ".."
  }

  predicate IsRevision(text: string) {
    |text| == 32 && forall c :: c in text ==> '0' <= c <= '9' || 'a' <= c <= 'f'
  }

  predicate KnownName(name: string) {
    || name == "intermediates"
    || ("work-" <= name && IsRevision(name[5..]))
    || ("evaluation-" <= name && IsRevision(name[11..]))
    || ("validation-" <= name && IsRevision(name[11..]))
  }

  predicate WellKeyed(files: Inventory) {
    forall key :: key in files ==> SafeKey(key) && (IsFolderKey(key) <==> files[key].Folder?)
  }

  predicate ValidRecord(intent: Intent, project: string) {
    && intent.project == project && KnownName(intent.name)
    && SEAL in intent.files && !intent.files[SEAL].Folder?
    && WellKeyed(intent.files)
  }

  predicate Within(actual: Inventory, expected: Inventory) {
    forall key :: key in actual ==> key in expected && actual[key] == expected[key]
  }

  /** The directory may be gone already; what is there was recorded, and is unchanged. */
  predicate Remainder(d: Disk, intent: Intent) {
    intent.name in d.directories ==>
      d.directories[intent.name].identity == intent.identity && Within(d.directories[intent.name].entries, intent.files)
  }

  /** Resuming has something to do and is allowed to do it. */
  predicate Admissible(d: Disk, project: string) {
    d.intent.Some? && !d.publishing && ValidRecord(d.intent.value, project) && Remainder(d, d.intent.value)
  }

  /** scratch.json belongs to this project and describes exactly what is beside it. */
  predicate Verified(entries: Inventory, project: string) {
    SEAL in entries && entries[SEAL] == Seal(project, entries - {SEAL})
  }

  // ------------------------------------------------- what the checks come to

  /** A name that the application gives to scratch directories. */
  ghost predicate ScratchName(name: string) {
    || name == "intermediates"
    || exists digits: string ::
         && |digits| == 32 && (forall c :: c in digits ==> c in "0123456789abcdef")
         && (name == "work-" + digits || name == "evaluation-" + digits || name == "validation-" + digits)
  }

  lemma NamesExactly(name: string)
    ensures KnownName(name) <==> ScratchName(name)
  {
    var hex := "0123456789abcdef";
    assert forall c: char :: '0' <= c <= '9' || 'a' <= c <= 'f' <==> c in hex by {
      forall c: char ensures ('0' <= c <= '9' || 'a' <= c <= 'f') <==> c in hex { HexDigit(c); }
    }
    if ScratchName(name) && name != "intermediates" {
      var digits :| |digits| == 32 && (forall c :: c in digits ==> c in hex) &&
                    (name == "work-" + digits || name == "evaluation-" + digits || name == "validation-" + digits);
      assert IsRevision(digits);
      assert name == "work-" + digits ==> "work-" <= name && name[5..] == digits;
      assert name == "evaluation-" + digits ==> "evaluation-" <= name && name[11..] == digits;
      assert name == "validation-" + digits ==> "validation-" <= name && name[11..] == digits;
    }
    if "work-" <= name && IsRevision(name[5..]) { assert name == "work-" + name[5..]; }
    if "evaluation-" <= name && IsRevision(name[11..]) { assert name == "evaluation-" + name[11..]; }
    if "validation-" <= name && IsRevision(name[11..]) { assert name == "validation-" + name[11..]; }
  }

  lemma HexDigit(c: char)
    ensures ('0' <= c <= '9' || 'a' <= c <= 'f') <==> c in "0123456789abcdef"
  {
    var hex := "0123456789abcdef";
    assert hex[0] == '0' && hex[1] == '1' && hex[2] == '2' && hex[3] == '3' && hex[4] == '4' && hex[5] == '5' && hex[6] == '6';
    assert hex[7] == '7' && hex[8] == '8' && hex[9] == '9' && hex[10] == 'a' && hex[11] == 'b' && hex[12] == 'c';
    assert hex[13] == 'd' && hex[14] == 'e' && hex[15] == 'f';
  }

  /** The parts of a path put together again. */
  function Joined(parts: seq<string>): string
    requires parts != []
  {
    if |parts| == 1 then parts[0] else parts[0] + "/" + Joined(parts[1..])
  }

  lemma {:induction false} JoinOfComponents(path: string)
    ensures Joined(Components(path)) == path
    ensures forall part :: part in Components(path) ==> '/' !in part
  {
    if path != "" {
      var rest := Components(path[1..]);
      JoinOfComponents(path[1..]);
      assert path == [path[0]] + path[1..];
      if path[0] == '/' {
        assert ([""] + rest)[1..] == rest;
        assert "" + "/" + path[1..] == path;
      } else {
        var parts := [[path[0]] + rest[0]] + rest[1..];
        assert parts[1..] == rest[1..];
        if |rest| > 1 {
          assert [path[0]] + rest[0] + "/" + Joined(rest[1..]) == [path[0]] + (rest[0] + "/" + Joined(rest[1..]));
        }
      }
    }
  }

  lemma {:induction false} OnePartMore(part: string, path: string)
    requires '/' !in part
    ensures Components(part + "/" + path) == [part] + Components(path)
    decreases |part|
  {
    var whole := part + "/" + path;
    if part == "" {
      assert whole[1..] == path;
    } else {
      assert whole[1..] == part[1..] + "/" + path;
      OnePartMore(part[1..], path);
      assert [part[0]] + part[1..] == part;
    }
  }

  lemma {:induction false} ComponentsOfJoin(parts: seq<string>)
    requires parts != [] && forall part :: part in parts ==> '/' !in part
    ensures Components(Joined(parts)) == parts
    decreases |parts|
  {
    if |parts| == 1 {
      SimpleKeyIsOneComponent(parts[0]);
      assert parts == [parts[0]];
    } else {
      ComponentsOfJoin(parts[1..]);
      OnePartMore(parts[0], Joined(parts[1..]));
      assert parts == [parts[0]] + parts[1..];
    }
  }

  /** A file or directory name that is nothing but a name. */
  predicate PlainName(part: string) {
    part != "" && part != "." && part != ".." && '/' !in part && '\\' !in part && ':' !in part
  }

  /** A path of plain names, one below the other; a directory's ends in a slash. */
  ghost predicate PlainPath(key: string, folder: bool) {
    exists parts: seq<string> ::
      parts != [] && (forall part :: part in parts ==> PlainName(part)) && key == Joined(parts) + (if folder then "/" else "")
  }

  lemma {:induction false} JoinHasOnly(parts: seq<string>, c: char)
    requires parts != [] && c != '/'
    ensures c in Joined(parts) <==> exists part :: part in parts && c in part
    decreases |parts|
  {
    if |parts| > 1 {
      JoinHasOnly(parts[1..], c);
      assert parts == [parts[0]] + parts[1..];
    } else {
      assert parts == [parts[0]];
    }
  }

  lemma {:induction false} JoinEnds(parts: seq<string>)
    requires parts != [] && forall part :: part in parts ==> PlainName(part)
    ensures Joined(parts) != "" && Joined(parts)[|Joined(parts)| - 1] != '/'
    decreases |parts|
  {
    assert PlainName(parts[0]);
    if |parts| > 1 {
      JoinEnds(parts[1..]);
      var rest := Joined(parts[1..]);
      assert Joined(parts)[|Joined(parts)| - 1] == rest[|rest| - 1];
    } else {
      assert parts[0][|parts[0]| - 1] in parts[0];
    }
  }

  lemma PlainIsSafe(key: string, folder: bool)
    requires PlainPath(key, folder)
    ensures IsFolderKey(key) == folder && SafeKey(key)
  {
    var parts :| parts != [] && (forall part :: part in parts ==> PlainName(part)) && key == Joined(parts) + (if folder then "/" else "");
    JoinEnds(parts);
    ComponentsOfJoin(parts);
    JoinHasOnly(parts, '\\');
    JoinHasOnly(parts, ':');
    assert folder ==> key[..|key| - 1] == Joined(parts);
    assert !folder ==> key == Joined(parts);
  }

  lemma SafeIsPlain(key: string)
    requires SafeKey(key)
    ensures PlainPath(key, IsFolderKey(key))
  {
    hide Components, Joined;
    var relative := if IsFolderKey(key) then key[..|key| - 1] else key;
    var parts := Components(relative);
    JoinOfComponents(relative);
    forall part | part in parts
      ensures PlainName(part)
    {
      assert '\\' !in part by { JoinHasOnly(parts, '\\'); }
      assert ':' !in part by { JoinHasOnly(parts, ':'); }
    }
    assert key == Joined(parts) + (if IsFolderKey(key) then "/" else "");
  }

  lemma SafeKeysExactly(key: string)
    ensures SafeKey(key) <==> PlainPath(key, IsFolderKey(key))
    ensures PlainPath(key, true) ==> IsFolderKey(key)
    ensures PlainPath(key, false) ==> !IsFolderKey(key)
  {
    hide SafeKey, PlainPath, IsFolderKey;
    if PlainPath(key, true) { PlainIsSafe(key, true); }
    if PlainPath(key, false) { PlainIsSafe(key, false); }
    if SafeKey(key) { SafeIsPlain(key); }
  }

  /** An intent that may be acted on: this project's, for a scratch directory, sealed, and nothing there is unknown or changed. */
  ghost predicate Rightful(d: Disk, intent: Intent, project: string) {
    && intent.project == project && ScratchName(intent.name)
    && "scratch.json" in intent.files && intent.files["scratch.json"] != Folder
    && (forall key :: key in intent.files ==> PlainPath(key, intent.files[key] == Folder))
    && (intent.name in d.directories ==>
          var directory := d.directories[intent.name];
          && directory.identity == intent.identity
          && forall key :: key in directory.entries ==> key in intent.files && intent.files[key] == directory.entries[key])
  }

  /** Exactly the rightful intents are acted on, and none while a publication is under way. */
  lemma AdmissibleIsExact(d: Disk, project: string)
    ensures Admissible(d, project) <==> d.intent.Some? && !d.publishing && Rightful(d, d.intent.value, project)
  {
    if d.intent.Some? {
      NamesExactly(d.intent.value.name);
      forall key | key in d.intent.value.files
        ensures PlainPath(key, d.intent.value.files[key] == Folder) <==>
                SafeKey(key) && (IsFolderKey(key) <==> d.intent.value.files[key].Folder?)
      {
        SafeKeysExactly(key);
      }
    }
    hide SafeKey, PlainPath, KnownName, ScratchName, IsFolderKey;
  }

  /** The directory's seal is this project's and lists exactly what is beside it. */
  ghost predicate SealedFor(entries: Inventory, project: string) {
    "scratch.json" in entries && entries["scratch.json"] == Seal(project, entries - {"scratch.json"})
  }

  // ------------------------------------------------------------ the invariant

  predicate Below(folder: string, key: string) {
    IsFolderKey(folder) && folder < key
  }

  /** Every directory on the way to an entry is itself an entry. */
  ghost predicate ParentClosed(files: Inventory) {
    forall key, i :: key in files && 0 <= i < |key| - 1 && key[i] == '/' ==> key[..i + 1] in files
  }

  /** What the inventory of a directory can be. */
  ghost predicate Listing(files: Inventory) {
    WellKeyed(files) && ParentClosed(files)
  }

  /** Every disk that a killed retirement can leave. */
  ghost predicate Consistent(d: Disk, project: string) {
    && (forall name :: name in d.directories ==> Listing(d.directories[name].entries))
    && (d.intent.Some? ==> ValidRecord(d.intent.value, project) && Remainder(d, d.intent.value))
  }

  function WithEntries(d: Disk, name: string, entries: Inventory): Disk
    requires name in d.directories
  {
    d.(directories := d.directories[name := d.directories[name].(entries := entries)])
  }

  function WithoutDirectory(d: Disk, name: string): Disk {
    d.(directories := d.directories - {name})
  }

  /** The retirement under way, if any, is over; nothing else has changed. */
  function Finished(d: Disk): Disk {
    if d.intent.Some? then WithoutDirectory(d, d.intent.value.name).(intent := None) else d
  }

  /** File-system operations until the retirement under way is over. */
  function Left(d: Disk): nat {
    if d.intent.None? then 0
    else if d.intent.value.name in d.directories then |d.directories[d.intent.value.name].entries| + 2
    else 1
  }

  // ------------------------------------------------------- longest key first

  ghost predicate Order(names: seq<string>, keys: set<string>) {
    && (forall key :: key in keys <==> key in names)
    && (forall i, j :: 0 <= i < j < |names| ==> names[i] != names[j] && |names[i]| >= |names[j]|)
  }

  /** What is left of an inventory when the first `done` names have been deleted. */
  ghost function Rest(files: Inventory, names: seq<string>, done: nat): Inventory
    requires done <= |names|
  {
    files - (set key | key in names[..done])
  }

  lemma StillToCome(names: seq<string>, i: nat, key: string)
    requires i <= |names| && key in names && key !in names[..i]
    ensures exists j :: i <= j < |names| && names[j] == key
  {
    assert names == names[..i] + names[i..];
  }

  lemma NextIsThere(files: Inventory, names: seq<string>, i: nat)
    requires Order(names, files.Keys) && i < |names|
    ensures names[i] in Rest(files, names, i)
  {
    assert forall j :: 0 <= j < i ==> names[..i][j] == names[j];
  }

  /** The next directory is empty by the time its turn comes. */
  lemma DescendantsGoFirst(files: Inventory, names: seq<string>, i: nat)
    requires Order(names, files.Keys) && i < |names|
    ensures forall key :: key in Rest(files, names, i) ==> !Below(names[i], key)
  {
    forall key | key in Rest(files, names, i)
      ensures !Below(names[i], key)
    {
      StillToCome(names, i, key);
    }
  }

  lemma OneLess(files: Inventory, names: seq<string>, i: nat)
    requires Order(names, files.Keys) && i < |names|
    ensures Rest(files, names, i + 1) == Rest(files, names, i) - {names[i]}
    ensures |Rest(files, names, i + 1)| == |Rest(files, names, i)| - 1
  {
    NextIsThere(files, names, i);
    hide Order;
    assert names[..i + 1] == names[..i] + [names[i]];
    assert forall key :: key in names[..i + 1] <==> key in names[..i] || key == names[i];
    assert Rest(files, names, i + 1).Keys == Rest(files, names, i).Keys - {names[i]};
  }

  /** A kill after any number of deletions leaves a directory tree: no entry has lost a parent. */
  lemma RestIsListing(files: Inventory, names: seq<string>, i: nat)
    requires Order(names, files.Keys) && i <= |names| && Listing(files)
    ensures Listing(Rest(files, names, i))
  {
    hide SafeKey;
    var rest := Rest(files, names, i);
    forall key, n | key in rest && 0 <= n < |key| - 1 && key[n] == '/'
      ensures key[..n + 1] in rest
    {
      StillToCome(names, i, key);
      var j :| i <= j < |names| && names[j] == key;
      forall longer | longer in names[..i]
        ensures |longer| >= |key|
      {
        var k :| 0 <= k < i && names[..i][k] == longer;
        assert names[k] == longer;
      }
    }
  }

  lemma {:induction false} SimpleKeyIsOneComponent(text: string)
    requires '/' !in text
    ensures Components(text) == [text]
  {
    if text != "" {
      SimpleKeyIsOneComponent(text[1..]);
      assert [text[0]] + text[1..] == text;
    }
  }

  lemma SimpleKeyIsSafe(text: string)
    requires '/' !in text && '\\' !in text && ':' !in text && text != "" && text != "." && text != ".."
    ensures SafeKey(text) && !IsFolderKey(text)
  {
    SimpleKeyIsOneComponent(text);
    hide Components;
  }

  lemma SealKeyIsSafe()
    ensures SafeKey(SEAL) && !IsFolderKey(SEAL)
  {
    hide SafeKey, IsFolderKey;
    SimpleKeyIsSafe(SEAL);
  }

  /** The directory `name` has lost `deleted` entries and nothing else has happened. */
  ghost predicate Partly(before: Disk, now: Disk, name: string, deleted: nat) {
    && name in before.directories && name in now.directories
    && now == WithEntries(before, name, now.directories[name].entries)
    && Within(now.directories[name].entries, before.directories[name].entries)
    && |now.directories[name].entries| + deleted == |before.directories[name].entries|
    && (Listing(before.directories[name].entries) ==> Listing(now.directories[name].entries))
  }

  /** rmdir wants an empty directory; a file must still have its recorded content and not be in use. */
  predicate Deletable(entries: Inventory, key: string, expected: Entry, busy: set<string>) {
    && key in entries && entries[key] == expected
    && (if expected.Folder? then forall other :: other in entries ==> !Below(key, other) else key !in busy)
  }

  lemma NextIsDeletable(files: Inventory, names: seq<string>, i: nat)
    requires Order(names, files.Keys) && i < |names|
    ensures names[i] in files && Deletable(Rest(files, names, i), names[i], files[names[i]], {})
  {
    NextIsThere(files, names, i);
    DescendantsGoFirst(files, names, i);
    hide Order, Below;
  }

  lemma NextDeletion(d: Disk, name: string, names: seq<string>, i: nat)
    requires name in d.directories && Order(names, d.directories[name].entries.Keys) && i < |names|
    requires |Rest(d.directories[name].entries, names, i)| == |names| - i
    ensures var files := d.directories[name].entries;
            var rest := Rest(files, names, i);
            && names[i] in files && Deletable(rest, names[i], files[names[i]], {})
            && WithEntries(WithEntries(d, name, rest), name, rest - {names[i]}) == WithEntries(d, name, Rest(files, names, i + 1))
            && |Rest(files, names, i + 1)| == |names| - (i + 1)
            && Partly(d, WithEntries(d, name, Rest(files, names, i + 1)), name, i + 1)
  {
    hide Listing, Partly, Deletable, Rest, Order;
    var files := d.directories[name].entries;
    NextIsDeletable(files, names, i);
    OneLess(files, names, i);
    SameSize(names, files.Keys);
    RestIsPart(d, name, names, i + 1);
  }

  lemma NothingDeleted(d: Disk, name: string, names: seq<string>)
    requires name in d.directories && Order(names, d.directories[name].entries.Keys)
    ensures var files := d.directories[name].entries;
            && WithEntries(d, name, Rest(files, names, 0)) == d
            && |Rest(files, names, 0)| == |names|
            && Partly(d, d, name, 0)
  {
    SameSize(names, d.directories[name].entries.Keys);
    assert Rest(d.directories[name].entries, names, 0) == d.directories[name].entries;
  }

  lemma {:induction false} SameSize(names: seq<string>, keys: set<string>)
    requires Order(names, keys)
    ensures |names| == |keys|
  {
    if names == [] {
      assert keys == {};
    } else {
      var last := names[|names| - 1];
      assert names == names[..|names| - 1] + [last];
      SameSize(names[..|names| - 1], keys - {last});
    }
  }

  lemma RestIsPart(d: Disk, name: string, names: seq<string>, i: nat)
    requires name in d.directories && Order(names, d.directories[name].entries.Keys) && i <= |names|
    requires |Rest(d.directories[name].entries, names, i)| + i == |d.directories[name].entries|
    ensures Partly(d, WithEntries(d, name, Rest(d.directories[name].entries, names, i)), name, i)
  {
    hide SafeKey, Order;
    if Listing(d.directories[name].entries) { RestIsListing(d.directories[name].entries, names, i); }
  }

  /** Sealing what a directory holds makes it retirable. */
  lemma SealingVerifies(entries: Inventory, project: string)
    requires Listing(entries)
    ensures var sealed := entries[SEAL := Seal(project, entries - {SEAL})];
            Verified(sealed, project) && Listing(sealed)
  {
    SealKeyIsSafe();
    hide SafeKey, IsFolderKey;
    var sealed := entries[SEAL := Seal(project, entries - {SEAL})];
    assert sealed - {SEAL} == entries - {SEAL};
    hide Verified;
    forall key, n | key in sealed && 0 <= n < |key| - 1 && key[n] == '/'
      ensures key[..n + 1] in sealed
    {
    }
  }

  lemma NotBusy(entries: Inventory, key: string, expected: Entry, busy: set<string>)
    requires Deletable(entries, key, expected, busy)
    ensures expected.Folder? || key !in busy
  {
  }

  /** Entries only disappear, only from the recorded directory, and nothing else changes. */
  ghost predicate OnlyShrunk(before: Disk, now: Disk) {
    && now.publishing == before.publishing
    && (now.intent == before.intent || now.intent.None?)
    && now.directories.Keys <= before.directories.Keys
    && (forall name :: name in before.directories ==>
          if before.intent.Some? && before.intent.value.name == name then
            name in now.directories ==>
              && now.directories[name].identity == before.directories[name].identity
              && Within(now.directories[name].entries, before.directories[name].entries)
          else name in now.directories && now.directories[name] == before.directories[name])
  }

  /** Where a kill, or a busy file, can stop the deletion. */
  lemma StoppedBetweenDeletions(before: Disk, now: Disk, project: string, deleted: nat)
    requires before.intent.Some? && Partly(before, now, before.intent.value.name, deleted)
    ensures now.intent == before.intent && now.publishing == before.publishing && Finished(now) == Finished(before)
    ensures OnlyShrunk(before, now)
    ensures Left(now) + deleted == Left(before) && Left(now) >= 2
    ensures Consistent(before, project) ==> Consistent(now, project)
  {
    hide Listing, ValidRecord;
    assert Finished(now).directories == Finished(before).directories;
  }

  lemma RootRemoved(d: Disk, project: string)
    requires d.intent.Some? && d.intent.value.name in d.directories && d.directories[d.intent.value.name].entries == map[]
    ensures Left(d) == 2
    ensures var now := WithoutDirectory(d, d.intent.value.name);
            && OnlyShrunk(d, now) && Left(now) == 1 && Finished(now) == Finished(d)
            && (Consistent(d, project) ==> Consistent(now, project))
  {
    hide Listing, ValidRecord;
    assert Finished(WithoutDirectory(d, d.intent.value.name)).directories == Finished(d).directories;
  }

  lemma IntentRemoved(d: Disk, project: string)
    requires d.intent.Some? && d.intent.value.name !in d.directories
    ensures var now := d.(intent := None);
            && now == Finished(d) && OnlyShrunk(d, now) && Left(now) == 0
            && (Consistent(d, project) ==> Consistent(now, project))
  {
    hide Listing, ValidRecord;
    assert Finished(d).directories == d.directories;
  }

  lemma NothingShrunk(d: Disk)
    ensures OnlyShrunk(d, d)
  {
  }

  lemma ShrunkTwice(a: Disk, b: Disk, c: Disk)
    requires OnlyShrunk(a, b) && OnlyShrunk(b, c) && b.intent == a.intent
    ensures OnlyShrunk(a, c)
  {
  }

  /** An intent for a directory of any other name, "cache" for one, is refused whatever else is on the disk. */
  lemma UnknownNameSticks(d: Disk, project: string, name: string)
    requires d.intent.Some? && d.intent.value.name == name && (name == "cache" || !KnownName(name))
    ensures !Admissible(d, project) && !KnownName(name)
  {
    if name == "cache" {
      assert name[0] == 'c' && "work-"[0] == 'w' && "evaluation-"[0] == 'e' && "validation-"[0] == 'v';
    }
  }

  function Sum(boots: seq<nat>): nat {
    if boots == [] then 0 else Sum(boots[..|boots| - 1]) + boots[|boots| - 1]
  }

  /** The files of a directory that another process holds open are still there. */
  ghost predicate BusyStay(before: Inventory, now: Inventory, busy: set<string>) {
    forall key :: key in busy && key in before && !before[key].Folder? ==> key in now
  }

  class Retention {
    var disk: Disk
    /** File-system operations before the process is killed. */
    var budget: nat
    /** Files of the directory that another process holds open. */
    var busy: set<string>
    const project: string

    constructor (disk: Disk, budget: nat, busy: set<string>, project: string)
      ensures this.disk == disk && this.budget == budget && this.busy == busy && this.project == project
    {
      this.disk := disk;
      this.budget := budget;
      this.busy := busy;
      this.project := project;
    }

    /** One atomic file-system operation. */
    method Apply(next: Disk) returns (o: Outcome)
      modifies `disk, `budget
      ensures o.Killed? <==> old(budget) == 0
      ensures o.Killed? ==> disk == old(disk) && budget == 0
      ensures !o.Killed? ==> o.Completed? && disk == next && budget == old(budget) - 1
    {
      if budget == 0 {
        return Killed;
      }
      budget := budget - 1;
      disk := next;
      o := Completed;
    }

    method LongestFirst(keys: set<string>) returns (names: seq<string>)
      ensures Order(names, keys) && |names| == |keys|
    {
      names := [];
      var rest := keys;
      while rest != {}
        invariant rest <= keys
        invariant forall key :: key in keys <==> key in rest || key in names
        invariant forall key :: key in rest ==> key !in names
        invariant forall i, j :: 0 <= i < j < |names| ==> names[i] != names[j] && |names[i]| >= |names[j]|
        invariant forall i, key :: 0 <= i < |names| && key in rest ==> |names[i]| >= |key|
        invariant |names| + |rest| == |keys|
        decreases |rest|
      {
        LongestExists(rest);
        var longest :| longest in rest && forall key :: key in rest ==> |longest| >= |key|;
        names := names + [longest];
        rest := rest - {longest};
      }
    }

    /** rmdir of an empty directory, or deleteVerified of a file that still has its recorded content. */
    method Delete(name: string, key: string, expected: Entry) returns (o: Outcome)
      requires name in disk.directories
      modifies `disk, `budget
      ensures o.Refused? <==> !Deletable(old(disk).directories[name].entries, key, expected, busy)
      ensures o.Killed? ==> old(budget) == 0
      ensures o.Completed? ==> old(budget) > 0
      ensures disk == (if o.Completed? then WithEntries(old(disk), name, old(disk).directories[name].entries - {key}) else old(disk))
      ensures budget == (if o.Completed? then old(budget) - 1 else old(budget))
    {
      var entries := disk.directories[name].entries;
      :- Require(Deletable(entries, key, expected, busy));
      o := Apply(WithEntries(disk, name, entries - {key}));
    }

    /** Everything in the directory, longest key first. */
    method DeleteAll(name: string) returns (o: Outcome, ghost deleted: nat)
      requires name in disk.directories
      modifies `disk, `budget
      ensures Partly(old(disk), disk, name, deleted) && name in disk.directories && disk.intent == old(disk).intent
      ensures budget + deleted == old(budget)
      ensures o.Completed? ==> disk.directories[name].entries == map[]
      ensures o.Killed? ==> budget == 0 && disk.directories[name].entries != map[]
      ensures busy == {} ==> !o.Refused?
      ensures BusyStay(old(disk).directories[name].entries, disk.directories[name].entries, busy)
    {
      hide Listing, Order, Partly, Deletable, Rest;
      ghost var start := disk;
      deleted := 0;
      var entries := disk.directories[name].entries;
      var names := LongestFirst(entries.Keys);
      var i := 0;
      NothingDeleted(start, name, names);
      while i < |names|
        invariant 0 <= i <= |names|
        invariant disk == WithEntries(start, name, Rest(entries, names, i))
        invariant |Rest(entries, names, i)| == |names| - i
        invariant Partly(start, disk, name, i)
        invariant old(budget) == budget + i && deleted == i
        invariant BusyStay(entries, disk.directories[name].entries, busy)
      {
        NextDeletion(start, name, names, i);
        ghost var before := disk.directories[name].entries;
        o := Delete(name, names[i], entries[names[i]]);
        if o.IsFailure() {
          return;
        }
        NotBusy(before, names[i], entries[names[i]], busy);
        i, deleted := i + 1, deleted + 1;
      }
      o := Completed;
    }

    /** resumeRetirement */
    method Resume() returns (o: Outcome)
      modifies `disk, `budget
      ensures old(disk).intent.None? ==> o.Completed? && disk == old(disk)
      ensures old(disk).intent.Some? && !Admissible(old(disk), project) ==> o.Refused? && disk == old(disk)
      ensures o.Completed? ==> disk == Finished(old(disk))
      ensures OnlyShrunk(old(disk), disk)
      ensures disk.publishing == old(disk).publishing
      ensures Consistent(old(disk), project) ==> Consistent(disk, project)
      ensures Consistent(old(disk), project) && !old(disk).publishing && busy == {} ==> !o.Refused?
      ensures !o.Refused? ==> (o.Completed? <==> old(budget) >= Left(old(disk)))
      ensures o.Completed? ==> budget == old(budget) - Left(old(disk))
      ensures old(disk).intent.Some? && old(disk).intent.value.name in old(disk).directories ==>
        var name := old(disk).intent.value.name;
        if name in disk.directories then BusyStay(old(disk).directories[name].entries, disk.directories[name].entries, busy)
        else BusyStay(old(disk).directories[name].entries, map[], busy)
      ensures o.Killed? ==> Left(disk) + old(budget) == Left(old(disk)) && Finished(disk) == Finished(old(disk)) && disk.intent == old(disk).intent
    {
      hide ValidRecord, Within, Listing;
      NothingShrunk(disk);
      if disk.intent.None? {
        return Completed;
      }
      ghost var start := disk;
      var intent := disk.intent.value;
      var name := intent.name;
      :- Require(!disk.publishing);
      :- Require(ValidRecord(intent, project));
      if name in disk.directories {
        :- Require(disk.directories[name].identity == intent.identity);
        :- Require(Within(disk.directories[name].entries, intent.files));
        o := DeleteDirectory(name);
        if o.IsFailure() {
          return;
        }
      }
      hide Consistent, OnlyShrunk, Left, Finished;
      IntentRemoved(disk, project);
      ShrunkTwice(start, disk, disk.(intent := None));
      o := Apply(disk.(intent := None));
    }

    method DeleteDirectory(name: string) returns (o: Outcome)
      requires name in disk.directories && disk.intent.Some? && disk.intent.value.name == name
      modifies `disk, `budget
      ensures disk.intent == old(disk).intent && disk.publishing == old(disk).publishing && Finished(disk) == Finished(old(disk))
      ensures OnlyShrunk(old(disk), disk)
      ensures Consistent(old(disk), project) ==> Consistent(disk, project)
      ensures Left(disk) + old(budget) == Left(old(disk)) + budget
      ensures o.Completed? ==> name !in disk.directories
      ensures BusyStay(old(disk).directories[name].entries, if name in disk.directories then disk.directories[name].entries else map[], busy)
      ensures o.Killed? ==> budget == 0 && Left(disk) >= 2
      ensures busy == {} ==> !o.Refused?
    {
      hide Consistent, OnlyShrunk, Partly, Left, Finished;
      ghost var start := disk;
      ghost var deleted;
      o, deleted := DeleteAll(name);
      StoppedBetweenDeletions(start, disk, project, deleted);
      if o.IsFailure() {
        return;
      }
      RootRemoved(disk, project);
      ShrunkTwice(start, disk, WithoutDirectory(disk, name));
      o := Apply(WithoutDirectory(disk, name));
    }

    /** sealScratch */
    method SealScratch(name: string) returns (o: Outcome)
      modifies `disk, `budget
      ensures o.Completed? ==>
        && name in old(disk).directories
        && name in disk.directories
        && disk == WithEntries(old(disk), name, disk.directories[name].entries)
        && Verified(disk.directories[name].entries, project)
        && disk.directories[name].entries - {SEAL} == old(disk).directories[name].entries - {SEAL}
      ensures !o.Completed? ==> disk == old(disk)
      ensures o.Refused? <==> name !in old(disk).directories
      ensures o.Killed? ==> old(budget) == 0
      ensures Consistent(old(disk), project) && (disk.intent.Some? ==> disk.intent.value.name != name) ==> Consistent(disk, project)
    {
      hide SafeKey, KnownName;
      :- Require(name in disk.directories);
      var entries := disk.directories[name].entries;
      if Listing(entries) { SealingVerifies(entries, project); }
      assert entries[SEAL := Seal(project, entries - {SEAL})] - {SEAL} == entries - {SEAL};
      hide Listing;
      o := Apply(WithEntries(disk, name, entries[SEAL := Seal(project, entries - {SEAL})]));
    }

    /** retireScratch */
    method RetireScratch(name: string) returns (o: Outcome)
      modifies `disk, `budget
      ensures o.Completed? ==> KnownName(name) && disk == WithoutDirectory(Finished(old(disk)), name)
      ensures old(disk).publishing ==> o.Refused? && disk == old(disk)
      ensures old(disk).intent.None? && (name !in old(disk).directories || !Verified(old(disk).directories[name].entries, project)) ==>
                o.Refused? && disk == old(disk)
      ensures Consistent(old(disk), project) && KnownName(name) ==> Consistent(disk, project)
      ensures Consistent(old(disk), project) && KnownName(name) && !old(disk).publishing && busy == {} && old(disk).intent.None? ==>
              (name in old(disk).directories && Verified(old(disk).directories[name].entries, project) ==> !o.Refused?)
      ensures old(disk).intent.None? && !old(disk).publishing && !KnownName(name) && name in old(disk).directories &&
              Verified(old(disk).directories[name].entries, project) && old(budget) >= 1 ==>
                var directory := old(disk).directories[name];
                && o.Refused? && !Admissible(disk, project)
                && disk == old(disk).(intent := Some(Intent(project, name, directory.identity, directory.entries)))
      ensures !ScratchName(name) ==> !o.Completed?
      ensures Consistent(old(disk), project) && !old(disk).publishing && old(disk).intent.None? && busy == {} &&
              name in old(disk).directories && SealedFor(old(disk).directories[name].entries, project) && ScratchName(name) &&
              old(budget) >= |old(disk).directories[name].entries| + 3 ==>
                o.Completed? && disk == old(disk).(directories := old(disk).directories - {name})
      ensures old(disk).intent.None? && !(name in old(disk).directories && SealedFor(old(disk).directories[name].entries, project)) ==>
                o.Refused? && disk == old(disk)
      ensures o.Killed? ==>
        old(budget) < Left(old(disk)) + (if name in old(disk).directories then |old(disk).directories[name].entries| + 3 else 0)
    {
      NamesExactly(name);
      hide SafeKey, KnownName, ScratchName;
      :- Require(!disk.publishing);
      :- Resume();
      ghost var good := Consistent(disk, project);
      :- Require(name in disk.directories);
      var directory := disk.directories[name];
      :- Require(Verified(directory.entries, project));
      var next := disk.(intent := Some(Intent(project, name, directory.identity, directory.entries)));
      if good && KnownName(name) { assert Consistent(next, project); }
      if !KnownName(name) { UnknownNameSticks(next, project, name); }
      :- Apply(next);
      o := Resume();
    }

    /** Any number of later starts, each killed after its own number of operations. */
    method ResumeUntilDone(boots: seq<nat>) returns (done: bool)
      requires Consistent(disk, project) && !disk.publishing && disk.intent.Some? && busy == {}
      modifies `disk, `budget
      ensures Consistent(disk, project)
      ensures done <==> Sum(boots) >= Left(old(disk))
      ensures done ==> disk == Finished(old(disk))
      ensures !done ==> disk.intent == old(disk).intent && Left(disk) == Left(old(disk)) - Sum(boots)
    {
      hide Consistent, Finished, Left, OnlyShrunk, Admissible;
      LeftIsPositive(disk);
      var i := 0;
      assert boots[..0] == [];
      while i < |boots|
        invariant 0 <= i <= |boots|
        invariant Consistent(disk, project) && !disk.publishing && disk.intent == old(disk).intent
        invariant Finished(disk) == Finished(old(disk))
        invariant Left(disk) + Sum(boots[..i]) == Left(old(disk)) && Left(disk) > 0
      {
        budget := boots[i];
        SumStep(boots, i);
        SumMonotone(boots, i + 1);
        var o := Resume();
        if o.Completed? {
          return true;
        }
        i := i + 1;
      }
      assert boots[..i] == boots;
      done := false;
    }
  }

  lemma LeftIsPositive(d: Disk)
    requires d.intent.Some?
    ensures Left(d) > 0
  {
  }

  lemma SumStep(boots: seq<nat>, i: nat)
    requires i < |boots|
    ensures Sum(boots[..i + 1]) == Sum(boots[..i]) + boots[i]
  {
    assert boots[..i + 1][..i] == boots[..i];
  }

  lemma {:induction false} SumMonotone(boots: seq<nat>, i: nat)
    requires i <= |boots|
    ensures Sum(boots[..i]) <= Sum(boots)
    decreases |boots|
  {
    if i < |boots| {
      SumMonotone(boots[..|boots| - 1], i);
      assert boots[..|boots| - 1][..i] == boots[..i];
    } else {
      assert boots[..i] == boots;
    }
  }

  lemma {:induction false} LongestExists(keys: set<string>)
    requires keys != {}
    ensures exists longest :: longest in keys && forall key :: key in keys ==> |longest| >= |key|
    decreases |keys|
  {
    var one :| one in keys;
    var others := keys - {one};
    if others == {} {
      assert forall key :: key in keys ==> key in others || key == one;
      assert one in keys && forall key :: key in keys ==> |one| >= |key|;
    } else {
      LongestExists(others);
      var best :| best in others && forall key :: key in others ==> |best| >= |key|;
      var longest := if |best| >= |one| then best else one;
      assert forall key :: key in keys ==> key == one || key in others;
      assert longest in keys && forall key :: key in keys ==> |longest| >= |key|;
    }
  }
}
