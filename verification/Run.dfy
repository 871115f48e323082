/** `grimoire run`: manifests, references in the environment, their resolution by
    the service, and the environment handed to the command
    (crates/grimoire-cli/src/main.rs, commands/manifest.rs,
    crates/grimoire-service/src/session.rs). */
module RunPipeline {
  import opened Base
  import opened Text
  import Requests

  type VaultRef = Requests.VaultRef
  type Env = map<string, string>

  // --- References ---

  const SCHEME: string := "grimoire:"

  /** grimoire:<id>/<field>, split at the last slash. */
  function ParseRef(value: string): Option<VaultRef>
  {
    match StripPrefix(value, SCHEME)
    case None => None
    case Some(rest) =>
      match LastIndexOf(rest, '/')
      case None => None
      case Some(slash) =>
        var id, field := rest[..slash], rest[slash + 1..];
        if id == "" || field == "" then None else Some(Requests.VaultRef(id, field))
  }

  function RefText(r: VaultRef): string { SCHEME + r.id + "/" + r.field }

  lemma LastIndexIs(s: string, c: char, k: nat)
    requires k < |s| && s[k] == c && c !in s[k + 1..]
    ensures LastIndexOf(s, c) == Some(k)
  {
    assert s[k] in s;
    var tail := s[k + 1..];
    assert forall i | k < i < |s| :: s[i] == tail[i - k - 1];
  }

  lemma RefTextParses(r: VaultRef)
    requires r.id != "" && r.field != "" && '/' !in r.field
    ensures ParseRef(RefText(r)) == Some(r)
  {
    hide LastIndexOf;
    var rest := r.id + "/" + r.field;
    assert RefText(r) == SCHEME + rest;
    assert RefText(r)[|SCHEME|..] == rest;
    assert rest[|r.id| + 1..] == r.field && rest[..|r.id|] == r.id;
    LastIndexIs(rest, '/', |r.id|);
  }

  lemma ParsedIsRefText(value: string)
    requires ParseRef(value).Some?
    ensures var r := ParseRef(value).value;
            value == RefText(r) && r.id != "" && r.field != "" && '/' !in r.field
  {
    hide LastIndexOf;
    var r := ParseRef(value).value;
    var rest := value[|SCHEME|..];
    assert value == SCHEME + rest;
    assert rest == r.id + "/" + r.field;
    assert RefText(r) == SCHEME + (r.id + "/" + r.field);
  }

  /** A value is read as a reference exactly when it is that reference's text, and
      only references without empty parts and without a slash in the field are. */
  lemma ParseRefCharacterised(value: string, r: VaultRef)
    ensures ParseRef(value) == Some(r) <==>
            value == "grimoire:" + r.id + "/" + r.field && r.id != "" && r.field != "" && '/' !in r.field
  {
    hide ParseRef;
    assert RefText(r) == "grimoire:" + r.id + "/" + r.field;
    if ParseRef(value).Some? {
      ParsedIsRefText(value);
    }
    if value == RefText(r) && r.id != "" && r.field != "" && '/' !in r.field {
      RefTextParses(r);
    }
  }

  // --- Manifests ---

  datatype Entry = Entry(key: string, reference: string)

  datatype LineError = BadFormat | BadName | BadValue

  datatype Line = Skipped | Good(entry: Entry) | Bad(error: LineError)

  predicate IsLetter(c: char) { 'A' <= c <= 'Z' || 'a' <= c <= 'z' }

  predicate IsValidEnvVarName(name: string)
  {
    && name != "" && (IsLetter(name[0]) || name[0] == '_')
    && forall i | 1 <= i < |name| :: IsLetter(name[i]) || '0' <= name[i] <= '9' || name[i] == '_'
  }

  /** What one manifest line says. Whitespace is a parameter. */
  function ReadLine(isSpace: char -> bool, line: string): Line
  {
    var trimmed := Trim(isSpace, line);
    if trimmed == "" || trimmed[0] == '#' then Skipped
    else
      var cut := IndexOf(trimmed, '=');
      if cut == |trimmed| then Bad(BadFormat)
      else
        var key, value := Trim(isSpace, trimmed[..cut]), Trim(isSpace, trimmed[cut + 1..]);
        if !IsValidEnvVarName(key) then Bad(BadName)
        else if ParseRef(value).None? then Bad(BadValue)
        else Good(Entry(key, value))
  }

  /** White space as the program knows it leaves names, '=' and '#' alone. */
  ghost predicate Separates(isSpace: char -> bool)
  {
    forall c: char | IsLetter(c) || '0' <= c <= '9' || c == '_' || c == '=' :: !isSpace(c)
  }

  lemma NameIsTight(isSpace: char -> bool, name: string)
    requires Separates(isSpace) && IsValidEnvVarName(name)
    ensures name != "" && name[0] != '#' && Tight(isSpace, name) && '=' !in name
  {
  }

  lemma BlankHasNoEquals(isSpace: char -> bool, s: string)
    requires Separates(isSpace) && Blank(isSpace, s)
    ensures '=' !in s
  {
  }

  /** Where the first '=' of such a line stands, and what is around it. */
  lemma SplitsAtEquals(key: string, b: string, value: string)
    requires '=' !in key && '=' !in b
    ensures var core := key + b + "=" + value;
            var cut := IndexOf(core, '=');
            cut < |core| && core[..cut] == key + b && core[cut + 1..] == value
  {
    var core := key + b + "=" + value;
    var cut := |key| + |b|;
    assert core[..cut] == key + b && core[cut] == '=' && core[cut + 1..] == value;
    assert '=' !in key + b;
    IndexIs(core, '=', cut);
  }

  lemma LineIsTight(isSpace: char -> bool, first: string, between: string, last: string)
    requires first != "" && last != "" && Tight(isSpace, first) && Tight(isSpace, last)
    ensures Tight(isSpace, first + between + last) && (first + between + last)[0] == first[0]
  {
    var line := first + between + last;
    assert line[|line| - 1] == last[|last| - 1];
  }

  lemma NothingIsBlank(isSpace: char -> bool)
    ensures Blank(isSpace, "")
  {
  }

  /** An entry written out, with any white space around name and reference, is
      read back as that entry. */
  lemma WrittenLineReads(isSpace: char -> bool, e: Entry, a: string, b: string, c: string, d: string)
    requires Separates(isSpace) && Blank(isSpace, a) && Blank(isSpace, b) && Blank(isSpace, c) && Blank(isSpace, d)
    requires IsValidEnvVarName(e.key) && ParseRef(e.reference).Some? && Tight(isSpace, e.reference)
    ensures ReadLine(isSpace, a + (e.key + b + "=" + (c + e.reference)) + d) == Good(e)
  {
    hide ParseRef, IsValidEnvVarName, Trim, Separates, Blank, Tight, IndexOf;
    NameIsTight(isSpace, e.key);
    BlankHasNoEquals(isSpace, b);
    ReferenceNotEmpty(e.reference);
    LineIsTight(isSpace, e.key, b + "=" + c, e.reference);
    var core := e.key + b + "=" + (c + e.reference);
    assert core == e.key + (b + "=" + c) + e.reference;
    TrimDrops(isSpace, a, core, d);
    SplitsAtEquals(e.key, b, c + e.reference);
    NothingIsBlank(isSpace);
    assert "" + e.key + b == e.key + b && c + e.reference + "" == c + e.reference;
    TrimDrops(isSpace, "", e.key, b);
    TrimDrops(isSpace, c, e.reference, "");
  }

  /** And only such lines are read as entries. */
  lemma GoodLineIsWritten(isSpace: char -> bool, line: string)
      returns (e: Entry, a: string, b: string, c: string, d: string)
    requires ReadLine(isSpace, line).Good?
    ensures ReadLine(isSpace, line) == Good(e)
    ensures exists x: string, y: string ::
              && Blank(isSpace, x) && Blank(isSpace, y)
              && line == a + (x + e.key + b + "=" + (c + e.reference + y)) + d
    ensures Blank(isSpace, a) && Blank(isSpace, b) && Blank(isSpace, c) && Blank(isSpace, d)
    ensures IsValidEnvVarName(e.key) && ParseRef(e.reference).Some? && Tight(isSpace, e.reference)
  {
    hide ParseRef, IsValidEnvVarName, Trim, Blank, Tight;
    e := ReadLine(isSpace, line).entry;
    var trimmed := Trim(isSpace, line);
    a, d := TrimSplits(isSpace, line);
    var cut := IndexOf(trimmed, '=');
    var left, right := trimmed[..cut], trimmed[cut + 1..];
    var x, y;
    x, b := TrimSplits(isSpace, left);
    c, y := TrimSplits(isSpace, right);
    assert trimmed == left + "=" + right;
    assert trimmed == x + e.key + b + "=" + (c + e.reference + y);
  }

  /** The other lines: blank ones and comments are skipped, a line without '=' has no
      format, and of the rest the name is judged before the value. */
  lemma OtherLines(isSpace: char -> bool, line: string) returns (key: string, value: string)
    ensures var t, r := Trim(isSpace, line), ReadLine(isSpace, line);
            if t == "" || t[0] == '#' then r == Skipped
            else if '=' !in t then r == Bad(BadFormat)
            else
              && t == key + "=" + value && '=' !in key
              && r == if !IsValidEnvVarName(Trim(isSpace, key)) then Bad(BadName)
                      else if ParseRef(Trim(isSpace, value)).None? then Bad(BadValue)
                      else Good(Entry(Trim(isSpace, key), Trim(isSpace, value)))
  {
    hide ParseRef, IsValidEnvVarName, Trim;
    var t := Trim(isSpace, line);
    key, value := "", "";
    if t != "" && t[0] != '#' {
      var cut := IndexOf(t, '=');
      if cut < |t| {
        key, value := t[..cut], t[cut + 1..];
        assert t == key + "=" + value;
      } else {
        assert t[..cut] == t;
      }
    }
  }

  const UPPER: string := "ABCDEFGHIJKLMNOPQRSTUVWXYZ"
  const LOWER: string := "abcdefghijklmnopqrstuvwxyz"
  const DIGITS: string := "0123456789"

  /** A name is written in letters, digits and underscores and does not start with a
      digit. */
  lemma NameIsWritten(name: string)
    ensures IsValidEnvVarName(name) <==>
            && name != "" && name[0] !in DIGITS
            && forall c | c in name :: c in UPPER || c in LOWER || c in DIGITS || c == '_'
  {
    forall c: char ensures (c in UPPER || c in LOWER <==> IsLetter(c)) && (c in DIGITS <==> '0' <= c <= '9') {
      UpperIsListed(c);
      LowerIsListed(c);
      DigitIsListed(c);
    }
  }

  lemma UpperIsListed(c: char)
    ensures c in UPPER <==> 'A' <= c <= 'Z'
  {
    if 'A' <= c <= 'Z' {
      assert UPPER[c as int - 'A' as int] == c;
    }
  }

  lemma LowerIsListed(c: char)
    ensures c in LOWER <==> 'a' <= c <= 'z'
  {
    if 'a' <= c <= 'z' {
      assert LOWER[c as int - 'a' as int] == c;
    }
  }

  lemma DigitIsListed(c: char)
    ensures c in DIGITS <==> '0' <= c <= '9'
  {
    if '0' <= c <= '9' {
      assert DIGITS[c as int - '0' as int] == c;
    }
  }

  lemma ReferenceNotEmpty(value: string)
    requires ParseRef(value).Some?
    ensures value != ""
  {
  }

  function EntriesOf(isSpace: char -> bool, lines: seq<string>): seq<Entry>
    decreases |lines|
  {
    if lines == [] then []
    else
      var n := |lines| - 1;
      var last := ReadLine(isSpace, lines[n]);
      EntriesOf(isSpace, lines[..n]) + if last.Good? then [last.entry] else []
  }

  predicate AllGood(isSpace: char -> bool, lines: seq<string>)
  {
    forall i | 0 <= i < |lines| :: !ReadLine(isSpace, lines[i]).Bad?
  }

  /** Stops at the first bad line, naming it from 1; otherwise every entry, in
      order, duplicates included. */
  method ParseManifest(isSpace: char -> bool, lines: seq<string>) returns (r: Result<seq<Entry>, (nat, LineError)>)
    ensures r.Ok? <==> AllGood(isSpace, lines)
    ensures r.Ok? ==> r.value == EntriesOf(isSpace, lines)
    ensures r.Err? ==> var (n, e) := r.error;
              1 <= n <= |lines| && ReadLine(isSpace, lines[n - 1]) == Bad(e) && AllGood(isSpace, lines[..n - 1])
  {
    hide Trim, ParseRef, IsValidEnvVarName;
    var entries := [];
    for i := 0 to |lines|
      invariant AllGood(isSpace, lines[..i])
      invariant entries == EntriesOf(isSpace, lines[..i])
    {
      assert lines[..i + 1][..i] == lines[..i] && lines[..i + 1][i] == lines[i];
      var trimmed := Trim(isSpace, lines[i]);
      if trimmed == "" || trimmed[0] == '#' {
        continue;
      }
      var cut := IndexOf(trimmed, '=');
      if cut == |trimmed| {
        return Err((i + 1, BadFormat));
      }
      var key, value := Trim(isSpace, trimmed[..cut]), Trim(isSpace, trimmed[cut + 1..]);
      if !IsValidEnvVarName(key) {
        return Err((i + 1, BadName));
      }
      if ParseRef(value).None? {
        return Err((i + 1, BadValue));
      }
      entries := entries + [Entry(key, value)];
    }
    assert lines[..|lines|] == lines;
    return Ok(entries);
  }

  lemma {:induction false} EntriesAreReferences(isSpace: char -> bool, lines: seq<string>)
    ensures forall e | e in EntriesOf(isSpace, lines) :: IsValidEnvVarName(e.key) && ParseRef(e.reference).Some?
    decreases |lines|
  {
    if lines != [] {
      EntriesAreReferences(isSpace, lines[..|lines| - 1]);
    }
  }

  // --- The union the entries amount to ---

  /** Earlier entries win. */
  function Union(entries: seq<Entry>): Env
    decreases |entries|
  {
    if entries == [] then map[] else Union(entries[1..])[entries[0].key := entries[0].reference]
  }

  lemma {:induction false} UnionConcat(a: seq<Entry>, b: seq<Entry>)
    ensures Union(a + b) == Union(b) + Union(a)
    decreases |a|
  {
    if a == [] {
      assert a + b == b;
    } else {
      assert (a + b)[1..] == a[1..] + b;
      UnionConcat(a[1..], b);
    }
  }

  /** One more entry takes effect only on a name that is not set yet. */
  lemma UnionSnoc(entries: seq<Entry>, e: Entry, env: Env)
    ensures var m := Union(entries) + env;
            Union(entries + [e]) + env == if e.key in m then m else m[e.key := e.reference]
  {
    UnionConcat(entries, [e]);
    assert Union([e]) == map[e.key := e.reference];
  }

  lemma {:induction false} UnionKeys(entries: seq<Entry>, k: string)
    ensures k in Union(entries) <==> exists i | 0 <= i < |entries| :: entries[i].key == k
    ensures k in Union(entries) ==>
              exists i | 0 <= i < |entries| :: entries[i] == Entry(k, Union(entries)[k])
                         && forall j | 0 <= j < i :: entries[j].key != k
    decreases |entries|
  {
    if entries != [] {
      var rest := entries[1..];
      UnionKeys(rest, k);
      if entries[0].key == k {
        assert entries[0] == Entry(k, Union(entries)[k]);
      } else if k in Union(entries) {
        var i :| 0 <= i < |rest| && rest[i] == Entry(k, Union(rest)[k]) && forall j | 0 <= j < i :: rest[j].key != k;
        assert entries[i + 1] == Entry(k, Union(entries)[k]);
      }
      if i :| 0 <= i < |rest| && rest[i].key == k {
        assert entries[i + 1].key == k;
      }
      if i :| 0 <= i < |entries| && entries[i].key == k {
        assert i > 0 ==> rest[i - 1].key == k;
      }
    }
  }

  datatype File = Unreadable | Readable(lines: seq<string>)

  predicate FileOk(isSpace: char -> bool, f: File) { f.Readable? && AllGood(isSpace, f.lines) }

  function FileEntries(isSpace: char -> bool, f: File): seq<Entry>
  {
    if f.Readable? then EntriesOf(isSpace, f.lines) else []
  }

  function AllEntries(isSpace: char -> bool, files: seq<File>): seq<Entry>
    decreases |files|
  {
    if files == [] then []
    else AllEntries(isSpace, files[..|files| - 1]) + FileEntries(isSpace, files[|files| - 1])
  }

  /** The environment once all the manifests are applied: what was set already
      wins, then the first entry for a name, whichever file it is in. */
  function Merged(isSpace: char -> bool, env: Env, files: seq<File>): Env { Union(AllEntries(isSpace, files)) + env }

  /** Applying one more manifest extends the union on the right. */
  lemma MergedSnoc(isSpace: char -> bool, env: Env, files: seq<File>, f: File)
    ensures Merged(isSpace, env, files + [f]) == Union(FileEntries(isSpace, f)) + Merged(isSpace, env, files)
  {
    assert (files + [f])[..|files|] == files;
    UnionConcat(AllEntries(isSpace, files), FileEntries(isSpace, f));
  }

  /** What the program's comment promises instead: later manifests override earlier
      ones, and what was set already still wins. */
  function Overriding(isSpace: char -> bool, files: seq<File>): Env
    decreases |files|
  {
    if files == [] then map[]
    else Overriding(isSpace, files[..|files| - 1]) + Union(FileEntries(isSpace, files[|files| - 1]))
  }

  predicate Sets(isSpace: char -> bool, f: File, k: string) { k in Union(FileEntries(isSpace, f)) }

  /** File i is the first to set the name, file j the last. */
  predicate FirstAndLast(isSpace: char -> bool, files: seq<File>, k: string, i: nat, j: nat)
    requires i < |files| && j < |files|
  {
    && Sets(isSpace, files[i], k) && Sets(isSpace, files[j], k)
    && (forall m | 0 <= m < i :: !Sets(isSpace, files[m], k))
    && (forall m | j < m < |files| :: !Sets(isSpace, files[m], k))
  }

  predicate NoneSets(isSpace: char -> bool, files: seq<File>, k: string)
  {
    forall m | 0 <= m < |files| :: !Sets(isSpace, files[m], k)
  }

  /** How the first and the last change with one more file. */
  lemma FirstAndLastSnoc(isSpace: char -> bool, init: seq<File>, f: File, k: string, i: nat, j: nat)
    ensures var files := init + [f]; var n := |init|;
            && (Sets(isSpace, f, k) && NoneSets(isSpace, init, k) ==> FirstAndLast(isSpace, files, k, n, n))
            && (!Sets(isSpace, f, k) && NoneSets(isSpace, init, k) ==> NoneSets(isSpace, files, k))
            && (i < n && j < n && FirstAndLast(isSpace, init, k, i, j) ==>
                  FirstAndLast(isSpace, files, k, i, if Sets(isSpace, f, k) then n else j))
  {
    hide Sets;
    var files := init + [f];
    assert files[|init|] == f && forall m | 0 <= m < |init| :: files[m] == init[m];
  }

  /** For every name, the union holds what the first file to set it says and the
      overriding rule what the last one says. */
  lemma {:induction false} FirstVersusLast(isSpace: char -> bool, files: seq<File>, k: string) returns (i: nat, j: nat)
    ensures k in Union(AllEntries(isSpace, files)) <==> k in Overriding(isSpace, files)
    ensures k in Overriding(isSpace, files) ==>
              && i < |files| && j < |files| && FirstAndLast(isSpace, files, k, i, j)
              && Union(AllEntries(isSpace, files))[k] == Union(FileEntries(isSpace, files[i]))[k]
              && Overriding(isSpace, files)[k] == Union(FileEntries(isSpace, files[j]))[k]
    ensures k !in Overriding(isSpace, files) ==> NoneSets(isSpace, files, k)
    decreases |files|
  {
    hide FileEntries, FirstAndLast;
    i, j := 0, 0;
    if files != [] {
      hide Union, NoneSets;
      var n := |files| - 1;
      var init := files[..n];
      assert files == init + [files[n]];
      i, j := FirstVersusLast(isSpace, init, k);
      UnionConcat(AllEntries(isSpace, init), FileEntries(isSpace, files[n]));
      FirstAndLastSnoc(isSpace, init, files[n], k, i, j);
      if Sets(isSpace, files[n], k) {
        j := n;
        if k !in Overriding(isSpace, init) {
          i := n;
        }
      }
    }
  }

  /** For any number of manifests the two rules give the same environment exactly
      when, for every name that is not set already, the first file to set it and
      the last one give it the same reference. */
  lemma LaterOverridesIff(isSpace: char -> bool, files: seq<File>, env: Env)
    ensures Merged(isSpace, env, files) == Overriding(isSpace, files) + env <==>
            forall k, i, j | k !in env && 0 <= i < |files| && 0 <= j < |files|
                             && FirstAndLast(isSpace, files, k, i, j) ::
              Union(FileEntries(isSpace, files[i]))[k] == Union(FileEntries(isSpace, files[j]))[k]
  {
    hide Overriding, Union, AllEntries, FileEntries;
    var coded, promised := Merged(isSpace, env, files), Overriding(isSpace, files) + env;
    if coded == promised {
      forall k, i, j | k !in env && 0 <= i < |files| && 0 <= j < |files| && FirstAndLast(isSpace, files, k, i, j)
        ensures Union(FileEntries(isSpace, files[i]))[k] == Union(FileEntries(isSpace, files[j]))[k]
      {
        var first, last := FirstVersusLast(isSpace, files, k);
        assert Sets(isSpace, files[i], k) && Sets(isSpace, files[j], k);
        assert first == i && last == j;
        assert coded[k] == promised[k];
      }
    } else {
      SomeKeyDiffers(coded, promised, env, isSpace, files);
    }
  }

  /** When the environments differ, some unset name shows it. */
  lemma SomeKeyDiffers(coded: Env, promised: Env, env: Env, isSpace: char -> bool, files: seq<File>)
    requires coded == Merged(isSpace, env, files) && promised == Overriding(isSpace, files) + env && coded != promised
    ensures exists k, i, j | k !in env && 0 <= i < |files| && 0 <= j < |files|
                             && FirstAndLast(isSpace, files, k, i, j) ::
              Union(FileEntries(isSpace, files[i]))[k] != Union(FileEntries(isSpace, files[j]))[k]
  {
    hide Overriding, Union, AllEntries, FileEntries, FirstAndLast, Sets;
    forall k ensures k in coded <==> k in promised {
      var i, j := FirstVersusLast(isSpace, files, k);
    }
    assert coded.Keys == promised.Keys;
    var k :| k in coded && coded[k] != promised[k];
    var i, j := FirstVersusLast(isSpace, files, k);
    assert FirstAndLast(isSpace, files, k, i, j);
  }

  /** Every name that a manifest brings in holds a reference afterwards. */
  lemma InjectedAreReferences(isSpace: char -> bool, env: Env, files: seq<File>, k: string)
    requires k in Merged(isSpace, env, files) && k !in env
    ensures IsValidEnvVarName(k) && ParseRef(Merged(isSpace, env, files)[k]).Some?
  {
    var entries := AllEntries(isSpace, files);
    AllEntriesAreReferences(isSpace, files);
    UnionKeys(entries, k);
    var i :| 0 <= i < |entries| && entries[i] == Entry(k, Union(entries)[k]);
    assert entries[i] in entries;
  }

  lemma {:induction false} AllEntriesAreReferences(isSpace: char -> bool, files: seq<File>)
    ensures forall e | e in AllEntries(isSpace, files) :: IsValidEnvVarName(e.key) && ParseRef(e.reference).Some?
    decreases |files|
  {
    if files != [] {
      AllEntriesAreReferences(isSpace, files[..|files| - 1]);
      if files[|files| - 1].Readable? {
        EntriesAreReferences(isSpace, files[|files| - 1].lines);
      }
    }
  }

  // --- Resolution by the service ---

  datatype Summary = Summary(id: string, name: string)

  datatype Detail = Detail(name: string, username: Option<string>, password: Option<string>, uri: Option<string>,
                           notes: Option<string>)

  datatype Vault = Vault(items: seq<Summary>, get: string -> Option<Detail>, totp: string -> Option<string>)

  datatype ResolveError =
    | NoItemNamed | AmbiguousName(n: nat) | NoItemMatching | AmbiguousPrefix(n: nat)
    | GetFailed | NoSuchField | TotpFailed | UnknownField

  /** The ids of the items that a filter lets through. */
  function Filtered(items: seq<Summary>, hit: Summary -> bool): seq<string>
  {
    if items == [] then []
    else (if hit(items[0]) then [items[0].id] else []) + Filtered(items[1..], hit)
  }

  function SelectItem(items: seq<Summary>, refId: string): Result<string, ResolveError>
  {
    match StripPrefix(refId, "//")
    case Some(name) =>
      var ids := Filtered(items, (x: Summary) => x.name == name);
      if |ids| == 0 then Err(NoItemNamed) else if |ids| == 1 then Ok(ids[0]) else Err(AmbiguousName(|ids|))
    case None =>
      var ids := Filtered(items, (x: Summary) => refId <= x.id);
      if |ids| == 0 then Err(NoItemMatching) else if |ids| == 1 then Ok(ids[0]) else Err(AmbiguousPrefix(|ids|))
  }

  function Need(o: Option<string>, e: ResolveError): Result<string, ResolveError>
  {
    if o.Some? then Ok(o.value) else Err(e)
  }

  function FieldOf(v: Vault, id: string, d: Detail, field: string): Result<string, ResolveError>
  {
    match field
    case "password" => Need(d.password, NoSuchField)
    case "pw" => Need(d.password, NoSuchField)
    case "username" => Need(d.username, NoSuchField)
    case "user" => Need(d.username, NoSuchField)
    case "uri" => Need(d.uri, NoSuchField)
    case "url" => Need(d.uri, NoSuchField)
    case "notes" => Need(d.notes, NoSuchField)
    case "note" => Need(d.notes, NoSuchField)
    case "name" => Ok(d.name)
    case "totp" => Need(v.totp(id), TotpFailed)
    case _ => Err(UnknownField)
  }

  function ResolveSingleRef(v: Vault, r: VaultRef): Result<string, ResolveError>
  {
    match SelectItem(v.items, r.id)
    case Err(e) => Err(e)
    case Ok(id) =>
      match v.get(id)
      case None => Err(GetFailed)
      case Some(d) => FieldOf(v, id, d, r.field)
  }

  datatype ResolvedRef = ResolvedRef(text: string, value: Option<string>, error: Option<ResolveError>)

  function AsResolved(r: VaultRef, outcome: Result<string, ResolveError>): ResolvedRef
  {
    match outcome
    case Ok(value) => ResolvedRef(RefText(r), Some(value), None)
    case Err(e) => ResolvedRef(RefText(r), None, Some(e))
  }

  // --- What a reference means ---

  /** The item carries the name after "//", or else its id starts with the text. */
  predicate Hit(x: Summary, refId: string)
  {
    if "//" <= refId then x.name == refId[2..] else refId <= x.id
  }

  function Hits(items: seq<Summary>, refId: string): set<nat>
  {
    set i: nat | i < |items| && Hit(items[i], refId)
  }

  /** Item i is the only one that does. */
  predicate Selects(items: seq<Summary>, refId: string, i: nat)
  {
    i < |items| && Hit(items[i], refId) && forall j | 0 <= j < |items| && j != i :: !Hit(items[j], refId)
  }

  /** The field names, each in both spellings where it has two, and what they stand
      for in an item. */
  predicate IsSlot(v: Vault, id: string, d: Detail, field: string, x: string)
  {
    || ((field == "password" || field == "pw") && d.password == Some(x))
    || ((field == "username" || field == "user") && d.username == Some(x))
    || ((field == "uri" || field == "url") && d.uri == Some(x))
    || ((field == "notes" || field == "note") && d.notes == Some(x))
    || (field == "name" && d.name == x)
    || (field == "totp" && v.totp(id) == Some(x))
  }

  /** The reference means x: it selects item i alone, whose details are there and hold
      x in the named slot. */
  predicate MeansBy(v: Vault, r: VaultRef, x: string, i: nat)
  {
    Selects(v.items, r.id, i)
    && var id := v.items[i].id; v.get(id).Some? && IsSlot(v, id, v.get(id).value, r.field, x)
  }

  ghost predicate Means(v: Vault, r: VaultRef, x: string) { exists i :: MeansBy(v, r, x, i) }

  lemma {:induction false} FilteredIsHits(items: seq<Summary>, hit: Summary -> bool, hits: set<nat>)
    requires hits == set i: nat | i < |items| && hit(items[i])
    ensures |Filtered(items, hit)| == |hits|
    ensures forall i | i in hits && |hits| == 1 :: Filtered(items, hit) == [items[i].id]
    decreases |items|
  {
    if items == [] {
      assert hits == {};
    } else {
      var rest := items[1..];
      var later := set i: nat | i < |rest| && hit(rest[i]);
      FilteredIsHits(rest, hit, later);
      var shifted := set i | i in later :: i + 1;
      ShiftKeepsSize(later, shifted);
      var first: set<nat> := if hit(items[0]) then {0} else {};
      forall i: nat ensures i in hits <==> i in first + shifted {
        if i > 0 {
          assert i in shifted <==> i - 1 in later;
        }
      }
      assert hits == first + shifted && first !! shifted;
      forall i | i in hits && |hits| == 1 ensures Filtered(items, hit) == [items[i].id] {
        if hit(items[0]) {
          assert 0 in hits && i == 0 by { OnlyMember(hits, 0, i); }
          assert Filtered(rest, hit) == [];
        } else {
          assert i - 1 in later;
        }
      }
    }
  }

  lemma OnlyMember(s: set<nat>, x: nat, y: nat)
    requires |s| == 1 && x in s && y in s
    ensures x == y
  {
    assert |s - {x}| == 0;
  }

  lemma {:induction false} ShiftKeepsSize(s: set<nat>, t: set<nat>)
    requires t == set i | i in s :: i + 1
    ensures |s| == |t|
    decreases s
  {
    if s != {} {
      var x :| x in s;
      var u := set i | i in s - {x} :: i + 1;
      ShiftKeepsSize(s - {x}, u);
      forall y ensures y in t <==> y in u + {x + 1} {
        if y in t {
          assert y - 1 in s && (y - 1 == x || y - 1 in s - {x});
        }
        if y in u {
          assert y - 1 in s;
        }
      }
      assert t == u + {x + 1} && x + 1 !in u;
    }
  }

  /** An item is selected exactly when it alone carries the name or the prefix; none
      and several are told apart, and the several counted. */
  lemma SelectsIff(items: seq<Summary>, refId: string)
    ensures forall i: nat | Selects(items, refId, i) :: SelectItem(items, refId) == Ok(items[i].id)
    ensures SelectItem(items, refId).Ok? ==> exists i: nat :: Selects(items, refId, i)
    ensures var named, n := "//" <= refId, |Hits(items, refId)|;
            && (SelectItem(items, refId).Ok? <==> n == 1)
            && (n == 0 ==> SelectItem(items, refId) == Err(if named then NoItemNamed else NoItemMatching))
            && (n >= 2 ==> SelectItem(items, refId) == Err(if named then AmbiguousName(n) else AmbiguousPrefix(n)))
  {
    hide Filtered;
    var hits := Hits(items, refId);
    if "//" <= refId {
      FilteredIsHits(items, (x: Summary) => x.name == refId[2..], hits);
    } else {
      FilteredIsHits(items, (x: Summary) => refId <= x.id, hits);
    }
    forall i: nat | Selects(items, refId, i) ensures hits == {i} {}
    if |hits| == 1 {
      var i :| i in hits;
      forall j | 0 <= j < |items| && j != i ensures !Hit(items[j], refId) {
        if Hit(items[j], refId) {
          OnlyMember(hits, i, j);
        }
      }
      assert Selects(items, refId, i);
    }
  }

  lemma FieldIsSlot(v: Vault, id: string, d: Detail, field: string, x: string)
    ensures FieldOf(v, id, d, field) == Ok(x) <==> IsSlot(v, id, d, field, x)
  {
  }

  /** For every vault and reference, the service answers x exactly when the reference
      means x: one item is selected by id prefix or exact name, its details are there,
      and the field names one of its slots, which holds x. */
  lemma ResolvesIffMeans(v: Vault, r: VaultRef, x: string)
    ensures ResolveSingleRef(v, r) == Ok(x) <==> Means(v, r, x)
  {
    hide SelectItem, FieldOf, Selects, IsSlot;
    SelectsIff(v.items, r.id);
    forall id, d ensures FieldOf(v, id, d, r.field) == Ok(x) <==> IsSlot(v, id, d, r.field, x) {
      FieldIsSlot(v, id, d, r.field, x);
    }
    if ResolveSingleRef(v, r) == Ok(x) {
      var i :| Selects(v.items, r.id, i);
      InRange(v.items, r.id, i);
      assert MeansBy(v, r, x, i);
    }
  }

  lemma InRange(items: seq<Summary>, refId: string, i: nat)
    requires Selects(items, refId, i)
    ensures i < |items|
  {
  }

  /** And which error otherwise: no or several items, no details, a field that is
      empty, a code that fails, or a name that is no field's. */
  lemma ErrorsIff(v: Vault, r: VaultRef)
    ensures var n, outcome := |Hits(v.items, r.id)|, ResolveSingleRef(v, r);
            if n != 1 then
              outcome == Err(if "//" <= r.id then if n == 0 then NoItemNamed else AmbiguousName(n)
                             else if n == 0 then NoItemMatching else AmbiguousPrefix(n))
            else
              exists i: nat :: Selects(v.items, r.id, i) &&
                var id := v.items[i].id;
                && (outcome == Err(GetFailed) <==> v.get(id).None?)
                && (outcome == Err(UnknownField) <==>
                      v.get(id).Some? && r.field !in {"password", "pw", "username", "user", "uri", "url", "notes",
                                                      "note", "name", "totp"})
                && (outcome == Err(TotpFailed) <==> v.get(id).Some? && r.field == "totp" && v.totp(id).None?)
                && outcome != Err(NoItemNamed) && outcome != Err(NoItemMatching)
  {
    hide SelectItem;
    SelectsIff(v.items, r.id);
    if |Hits(v.items, r.id)| == 1 {
      var i :| Selects(v.items, r.id, i);
    }
  }

  /** One result per reference, in the order asked: each its meaning, and an error
      exactly for the references that mean nothing. */
  method ResolveRefs(v: Vault, refs: seq<VaultRef>) returns (results: seq<ResolvedRef>)
    ensures |results| == |refs|
    ensures forall i | 0 <= i < |refs| :: results[i] == AsResolved(refs[i], ResolveSingleRef(v, refs[i]))
    ensures forall i, x | 0 <= i < |refs| :: results[i].value == Some(x) <==> Means(v, refs[i], x)
    ensures forall i | 0 <= i < |refs| :: results[i].error.Some? <==> results[i].value.None?
  {
    hide ResolveSingleRef, Means, RefText;
    results := [];
    for n := 0 to |refs|
      invariant |results| == n
      invariant forall i | 0 <= i < n :: results[i] == AsResolved(refs[i], ResolveSingleRef(v, refs[i]))
    {
      var resolved := ResolveSingleRef(v, refs[n]);
      results := results + [match resolved
                            case Ok(value) => ResolvedRef(RefText(refs[n]), Some(value), None)
                            case Err(e) => ResolvedRef(RefText(refs[n]), None, Some(e))];
    }
    forall i, x | 0 <= i < |refs| ensures results[i].value == Some(x) <==> Means(v, refs[i], x) {
      ResolvesIffMeans(v, refs[i], x);
    }
  }

  /** An id prefix selects an item exactly when it alone has an id starting so;
      and then every longer prefix of that id selects it too. */
  lemma LongerPrefixesAgree(items: seq<Summary>, prefix: string, longer: string, id: string)
    requires !("//" <= prefix) && !("//" <= longer)
    ensures SelectItem(items, prefix) == Ok(id) <==>
            exists i | 0 <= i < |items| ::
              && prefix <= items[i].id && items[i].id == id
              && forall j | 0 <= j < |items| && j != i :: !(prefix <= items[j].id)
    ensures SelectItem(items, prefix) == Ok(id) && prefix <= longer <= id ==> SelectItem(items, longer) == Ok(id)
  {
    hide SelectItem, Hits;
    SelectsIff(items, prefix);
    SelectsIff(items, longer);
    if SelectItem(items, prefix) == Ok(id) {
      var i :| Selects(items, prefix, i);
      assert prefix <= longer <= id ==> Selects(items, longer, i);
    }
    if i :| 0 <= i < |items| && prefix <= items[i].id && items[i].id == id
            && forall j | 0 <= j < |items| && j != i :: !(prefix <= items[j].id) {
      assert Selects(items, prefix, i);
    }
  }

  // --- The run ---

  datatype Answer = SendFails | LockedError | PromptUnavailableError | OtherError | NoResult | Malformed | Results

  /** The service as the command line meets it: how the two resolve requests and
      the unlock request in between are answered, and what results it sends. */
  datatype Peer = Peer(first: Answer, unlock: Answer, second: Answer, results: seq<VaultRef> -> seq<ResolvedRef>)

  /** Results as `vault.resolve_refs` computes them, for some meaning of references. */
  ghost predicate Honest(p: Peer, meaning: VaultRef -> Result<string, ResolveError>)
  {
    forall refs :: |p.results(refs)| == |refs|
      && forall i | 0 <= i < |refs| :: p.results(refs)[i] == AsResolved(refs[i], meaning(refs[i]))
  }

  predicate HasReference(env: Env) { exists k | k in env :: ParseRef(env[k]).Some? }

  predicate Resolves(env: Env, meaning: VaultRef -> Result<string, ResolveError>)
  {
    forall k | k in env && ParseRef(env[k]).Some? :: meaning(ParseRef(env[k]).value).Ok?
  }

  /** Each reference replaced by what it stands for, everything else left alone. */
  function Substituted(env: Env, meaning: VaultRef -> Result<string, ResolveError>): Env
  {
    map k | k in env ::
      match ParseRef(env[k])
      case None => env[k]
      case Some(r) => if meaning(r).Ok? then meaning(r).value else env[k]
  }

  datatype RunResult = Exec(command: seq<string>) | Bail | Panicked

  predicate Paired(env: Env, pairs: seq<(string, VaultRef)>, keys: set<string>)
  {
    && (forall i | 0 <= i < |pairs| ::
          pairs[i].0 in keys && pairs[i].0 in env && ParseRef(env[pairs[i].0]) == Some(pairs[i].1))
    && (forall i, j | 0 <= i < j < |pairs| :: pairs[i].0 != pairs[j].0)
    && (forall k | k in keys && k in env && ParseRef(env[k]).Some? :: exists i | 0 <= i < |pairs| :: pairs[i].0 == k)
  }

  lemma MergedNone(isSpace: char -> bool, env: Env)
    ensures Merged(isSpace, env, []) == env
  {
  }

  lemma PairsShowReferences(env: Env, pairs: seq<(string, VaultRef)>)
    requires Paired(env, pairs, env.Keys)
    ensures HasReference(env) <==> pairs != []
  {
    hide ParseRef;
    if pairs != [] {
      assert ParseRef(env[pairs[0].0]).Some?;
    }
  }

  lemma NothingToReplace(env: Env, meaning: VaultRef -> Result<string, ResolveError>)
    requires !HasReference(env)
    ensures Substituted(env, meaning) == env
  {
    hide ParseRef;
  }

  lemma NothingFails(env: Env, meaning: VaultRef -> Result<string, ResolveError>)
    requires !HasReference(env)
    ensures Resolves(env, meaning)
  {
    hide ParseRef;
  }

  /** Honest results line up with the variables and fail iff some reference does. */
  lemma HonestResults(peer: Peer, meaning: VaultRef -> Result<string, ResolveError>, env: Env,
                      pairs: seq<(string, VaultRef)>, refs: seq<VaultRef>)
    requires Honest(peer, meaning) && Paired(env, pairs, env.Keys)
    requires |refs| == |pairs| && forall i | 0 <= i < |pairs| :: refs[i] == pairs[i].1
    ensures var results := peer.results(refs);
            && |results| == |pairs|
            && (forall i | 0 <= i < |pairs| :: results[i] == AsResolved(pairs[i].1, meaning(pairs[i].1)))
            && ((exists i | 0 <= i < |results| :: results[i].error.Some?) <==> !Resolves(env, meaning))
  {
    hide ParseRef, RefText;
    var results := peer.results(refs);
    assert forall i | 0 <= i < |refs| :: results[i] == AsResolved(refs[i], meaning(refs[i]));
    if !Resolves(env, meaning) {
      var k :| k in env && ParseRef(env[k]).Some? && meaning(ParseRef(env[k]).value).Err?;
      var i :| 0 <= i < |pairs| && pairs[i].0 == k;
      assert results[i].error.Some?;
    }
    if i :| 0 <= i < |results| && results[i].error.Some? {
      assert ParseRef(env[pairs[i].0]) == Some(pairs[i].1);
    }
  }

  lemma ReplacedIsSubstituted(env: Env, after: Env, pairs: seq<(string, VaultRef)>, results: seq<ResolvedRef>,
                              meaning: VaultRef -> Result<string, ResolveError>)
    requires Paired(env, pairs, env.Keys) && |results| == |pairs| && Resolves(env, meaning)
    requires forall i | 0 <= i < |pairs| :: results[i] == AsResolved(pairs[i].1, meaning(pairs[i].1))
    requires after.Keys == env.Keys
    requires forall i | 0 <= i < |pairs| && results[i].value.Some? :: after[pairs[i].0] == results[i].value.value
    requires forall k | k in env && ParseRef(env[k]).None? :: after[k] == env[k]
    ensures after == Substituted(env, meaning)
  {
    hide ParseRef, RefText;
    forall k | k in env && ParseRef(env[k]).Some? ensures after[k] == meaning(ParseRef(env[k]).value).value {
      var i :| 0 <= i < |pairs| && pairs[i].0 == k;
      assert ParseRef(env[pairs[i].0]) == Some(pairs[i].1);
    }
  }

  /** What the command gets for a variable: its value, or what its reference means. */
  ghost predicate Given(v: Vault, before: string, after: string)
  {
    match ParseRef(before)
    case None => after == before
    case Some(r) => Means(v, r, after)
  }

  lemma SubstitutedGives(v: Vault, env: Env, meaning: VaultRef -> Result<string, ResolveError>)
    requires Resolves(env, meaning) && forall r :: meaning(r) == ResolveSingleRef(v, r)
    ensures var after := Substituted(env, meaning);
            after.Keys == env.Keys && forall k | k in env :: Given(v, env[k], after[k])
  {
    hide ParseRef, ResolveSingleRef, Means;
    forall k | k in env ensures Given(v, env[k], Substituted(env, meaning)[k]) {
      if ParseRef(env[k]).Some? {
        var r := ParseRef(env[k]).value;
        ResolvesIffMeans(v, r, meaning(r).value);
      }
    }
  }

  /** So a reference to a password is the password of the item it selects when it
      reaches the command, and likewise in either spelling. */
  lemma PasswordReachesCommand(v: Vault, before: string, after: string, id: string)
    requires before == "grimoire:" + id + "/password" || before == "grimoire:" + id + "/pw"
    requires id != "" && Given(v, before, after)
    ensures exists i: nat :: && Selects(v.items, id, i) && v.get(v.items[i].id).Some?
                        && v.get(v.items[i].id).value.password == Some(after)
  {
    hide ParseRef, Selects;
    var field := if before == "grimoire:" + id + "/password" then "password" else "pw";
    ParseRefCharacterised(before, Requests.VaultRef(id, field));
    var i :| MeansBy(v, Requests.VaultRef(id, field), after, i);
    InRange(v.items, id, i);
  }

  /** The service's own loop is such an honest peer. */
  lemma ServiceIsHonest(peer: Peer, v: Vault)
    requires forall refs :: |peer.results(refs)| == |refs|
               && forall i | 0 <= i < |refs| ::
                    peer.results(refs)[i] == AsResolved(refs[i], ResolveSingleRef(v, refs[i]))
    ensures Honest(peer, r => ResolveSingleRef(v, r))
  {
  }

  class Process {
    var env: Env

    constructor (env: Env)
      ensures this.env == env
    {
      this.env := env;
    }

    /** Sets what is not set; existing values and earlier entries stay. */
    method ApplyManifestEntries(entries: seq<Entry>)
      modifies this
      ensures env == Union(entries) + old(env)
    {
      for i := 0 to |entries|
        invariant env == Union(entries[..i]) + old(env)
      {
        assert entries[..i + 1] == entries[..i] + [entries[i]];
        UnionSnoc(entries[..i], entries[i], old(env));
        if entries[i].key !in env {
          env := env[entries[i].key := entries[i].reference];
        }
      }
      assert entries[..|entries|] == entries;
    }

    /** Scans the environment, in whatever order it comes. */
    method Collect() returns (pairs: seq<(string, VaultRef)>)
      ensures Paired(env, pairs, env.Keys)
    {
      pairs := [];
      var left := env.Keys;
      while left != {}
        invariant left <= env.Keys
        invariant Paired(env, pairs, env.Keys - left)
        decreases left
      {
        var k :| k in left;
        left := left - {k};
        var parsed := ParseRef(env[k]);
        if parsed.Some? {
          ghost var before := pairs;
          pairs := pairs + [(k, parsed.value)];
          assert pairs[|before|].0 == k;
          assert forall i | 0 <= i < |before| :: pairs[i] == before[i];
        }
      }
    }

    /** The last loop: sets each variable to its result, and stops dead on a value
        that belongs to none. */
    method Replace(pairs: seq<(string, VaultRef)>, results: seq<ResolvedRef>) returns (done: bool)
      requires Paired(env, pairs, env.Keys)
      modifies this
      ensures env.Keys == old(env).Keys
      ensures |results| <= |pairs| ==> done
      ensures done ==> forall i | 0 <= i < |results| && results[i].value.Some? ::
                         i < |pairs| && pairs[i].0 in env && env[pairs[i].0] == results[i].value.value
      ensures forall k | k in env && ParseRef(old(env)[k]).None? :: env[k] == old(env)[k]
    {
      hide ParseRef;
      for n := 0 to |results|
        invariant env.Keys == old(env).Keys
        invariant forall i | 0 <= i < n && results[i].value.Some? ::
                    i < |pairs| && env[pairs[i].0] == results[i].value.value
        invariant forall k | k in env && ParseRef(old(env)[k]).None? :: env[k] == old(env)[k]
      {
        if results[n].value.Some? {
          if n >= |pairs| {
            return false;
          }
          env := env[pairs[n].0 := results[n].value.value];
        }
      }
      return true;
    }

    /** Whether any result is an error; indexing the pairs panics on a result
        that has none. */
    method AnyError(pairs: seq<(string, VaultRef)>, results: seq<ResolvedRef>) returns (found: bool, panicked: bool)
      ensures |results| <= |pairs| ==> !panicked
      ensures !panicked ==> (found <==> exists i | 0 <= i < |results| :: results[i].error.Some?)
    {
      found, panicked := false, false;
      for i := 0 to |results|
        invariant found <==> exists j | 0 <= j < i :: results[j].error.Some?
        invariant !panicked
      {
        if results[i].error.Some? {
          if i >= |pairs| {
            panicked := true;
            return;
          }
          found := true;
        }
      }
    }

    /** The whole command. What it hands to the new program, when it does, is the
        merged environment with every reference replaced by what it stands for, which
        for the service over a vault is what it means there; it hands over exactly when
        nothing at all went wrong, and when it gives up no variable has been replaced
        yet. */
    method HandleRun(isSpace: char -> bool, files: seq<File>, command: seq<string>, peer: Peer,
                     ghost meaning: VaultRef -> Result<string, ResolveError>, ghost v: Vault)
      returns (r: RunResult)
      modifies this
      ensures Honest(peer, meaning) ==>
                var merged := Merged(isSpace, old(env), files);
                var unlocked := peer.unlock.Results? || peer.unlock.NoResult? || peer.unlock.Malformed?;
                var answered := peer.first.Results? || (peer.first.LockedError? && unlocked && peer.second.Results?);
                (r.Exec? <==> command != [] && (forall f | f in files :: FileOk(isSpace, f))
                              && (HasReference(merged) ==> answered && Resolves(merged, meaning)))
                && (r.Exec? ==> r.command == command && env == Substituted(merged, meaning))
                && !r.Panicked?
      ensures Honest(peer, meaning) && (forall x :: meaning(x) == ResolveSingleRef(v, x)) && r.Exec? ==>
                var merged := Merged(isSpace, old(env), files);
                env.Keys == merged.Keys && forall k | k in merged :: Given(v, merged[k], env[k])
      ensures r.Bail? ==> exists n | 0 <= n <= |files| :: env == Merged(isSpace, old(env), files[..n])
    {
      hide ParseRef, Merged, AllGood, EntriesOf, Honest, Substituted, Paired, HasReference, Resolves;
      hide ResolveSingleRef, Given;
      ghost var original := env;
      MergedNone(isSpace, env);
      assert files[..0] == [];
      if command == [] {
        return Bail;
      }
      for n := 0 to |files|
        invariant env == Merged(isSpace, original, files[..n])
        invariant forall i | 0 <= i < n :: FileOk(isSpace, files[i])
      {
        if files[n].Unreadable? {
          assert !FileOk(isSpace, files[n]);
          return Bail;
        }
        var entries := ParseManifest(isSpace, files[n].lines);
        if entries.Err? {
          assert !FileOk(isSpace, files[n]);
          return Bail;
        }
        assert files[..n + 1] == files[..n] + [files[n]];
        MergedSnoc(isSpace, original, files[..n], files[n]);
        ApplyManifestEntries(entries.value);
      }
      assert files[..|files|] == files;
      ghost var merged := env;
      var pairs := Collect();
      PairsShowReferences(merged, pairs);
      if pairs == [] {
        NothingToReplace(merged, meaning);
        NothingFails(merged, meaning);
        if forall x :: meaning(x) == ResolveSingleRef(v, x) {
          SubstitutedGives(v, merged, meaning);
        }
        return Exec(command);
      }
      var refs := seq(|pairs|, i requires 0 <= i < |pairs| => pairs[i].1);
      var answer := peer.first;
      if answer.LockedError? {
        if peer.unlock.SendFails? || peer.unlock.LockedError? || peer.unlock.PromptUnavailableError?
           || peer.unlock.OtherError? {
          return Bail;
        }
        answer := peer.second;
      } else if answer.PromptUnavailableError? {
        return Bail;
      }
      if !answer.Results? {
        return Bail;
      }
      var resolved := peer.results(refs);
      var hadErrors, panicked := AnyError(pairs, resolved);
      if Honest(peer, meaning) {
        HonestResults(peer, meaning, merged, pairs, refs);
      }
      if panicked {
        return Panicked;
      }
      if hadErrors {
        return Bail;
      }
      var replaced := Replace(pairs, resolved);
      if !replaced {
        return Panicked;
      }
      if Honest(peer, meaning) {
        ReplacedIsSubstituted(merged, env, pairs, resolved, meaning);
        if forall x :: meaning(x) == ResolveSingleRef(v, x) {
          SubstitutedGives(v, merged, meaning);
        }
      }
      return Exec(command);
    }
  }
}
