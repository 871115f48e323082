/** The git credential helper: its input format and the choice of a vault item
    for a request (crates/grimoire-cli/src/commands/credential_helper.rs). */
module UriMatching {
  import opened Base
  import opened Text

  // --- The request on standard input ---

  datatype CredentialRequest = CredentialRequest(protocol: Option<string>, host: Option<string>, path: Option<string>,
                                                 username: Option<string>)

  datatype Malformed = MissingDelimiter

  /** The lines before the first blank one. */
  function Head(lines: seq<string>): (n: nat)
    ensures n <= |lines| && (n < |lines| ==> lines[n] == "") && forall i | 0 <= i < n :: lines[i] != ""
  {
    if lines == [] || lines[0] == "" then 0 else 1 + Head(lines[1..])
  }

  function KeyOf(line: string): string { line[..IndexOf(line, '=')] }

  function ValueOf(line: string): string
    requires '=' in line
  {
    line[IndexOf(line, '=') + 1..]
  }

  predicate WellFormed(lines: seq<string>) { forall i | 0 <= i < |lines| :: '=' in lines[i] }

  /** The value of the last line with this key. */
  function LastValue(lines: seq<string>, key: string): Option<string>
    requires WellFormed(lines)
    decreases |lines|
  {
    if lines == [] then None
    else
      var n := |lines| - 1;
      if KeyOf(lines[n]) == key then Some(ValueOf(lines[n])) else LastValue(lines[..n], key)
  }

  /** That is: some line is the key, '=' and the value, and no later one has the key. */
  lemma {:induction false} LastValueIs(lines: seq<string>, key: string, value: string)
    requires WellFormed(lines) && '=' !in key
    ensures LastValue(lines, key) == Some(value) <==>
            exists i | 0 <= i < |lines| :: lines[i] == key + "=" + value
                                          && forall j | i < j < |lines| :: !(key + "=" <= lines[j])
    decreases |lines|
  {
    if lines != [] {
      var n := |lines| - 1;
      var last, init := lines[n], lines[..n];
      LastValueIs(init, key, value);
      KeyIsPrefix(last, key);
      if KeyOf(last) == key {
        assert last == key + "=" + ValueOf(last);
        assert (key + "=" + value)[|key| + 1..] == value;
      } else {
        if i :| 0 <= i < |init| && init[i] == key + "=" + value
                && forall j | i < j < |init| :: !(key + "=" <= init[j]) {
          assert lines[i] == key + "=" + value;
          forall j | i < j < |lines| ensures !(key + "=" <= lines[j]) {
            if j < n {
              assert lines[j] == init[j];
            }
          }
        }
        if i :| 0 <= i < |lines| && lines[i] == key + "=" + value
                && forall j | i < j < |lines| :: !(key + "=" <= lines[j]) {
          assert key + "=" <= lines[i];
          assert init[i] == lines[i];
          assert forall j | i < j < |init| :: init[j] == lines[j];
        }
      }
    }
  }

  lemma KeyIsPrefix(line: string, key: string)
    requires '=' in line && '=' !in key
    ensures KeyOf(line) == key <==> key + "=" <= line
    ensures line == KeyOf(line) + "=" + ValueOf(line)
  {
    if key + "=" <= line {
      assert line[|key|] == '=' && line[..|key|] == key;
      IndexIs(line, '=', |key|);
    }
  }

  /** Reads key=value lines up to a blank one; the last of each known key wins and
      the first line without a delimiter is an error. */
  method ParseCredentialRequest(lines: seq<string>) returns (r: Result<CredentialRequest, Malformed>)
    ensures var block := lines[..Head(lines)];
            && (r.Ok? <==> WellFormed(block))
            && (r.Ok? ==> && r.value.protocol == LastValue(block, "protocol")
                          && r.value.host == LastValue(block, "host")
                          && r.value.path == LastValue(block, "path")
                          && r.value.username == LastValue(block, "username"))
  {
    var req := CredentialRequest(None, None, None, None);
    var n := 0;
    ghost var head := Head(lines);
    while n < |lines|
      invariant n <= head
      invariant WellFormed(lines[..n])
      invariant req.protocol == LastValue(lines[..n], "protocol") && req.host == LastValue(lines[..n], "host")
      invariant req.path == LastValue(lines[..n], "path") && req.username == LastValue(lines[..n], "username")
    {
      var line := lines[n];
      if line == "" {
        break;
      }
      assert lines[..head][n] == line;
      var cut := IndexOf(line, '=');
      if cut == |line| {
        return Err(MissingDelimiter);
      }
      assert lines[..n + 1][..n] == lines[..n] && lines[..n + 1][n] == line;
      match line[..cut] {
        case "protocol" => req := req.(protocol := Some(line[cut + 1..]));
        case "host" => req := req.(host := Some(line[cut + 1..]));
        case "path" => req := req.(path := Some(line[cut + 1..]));
        case "username" => req := req.(username := Some(line[cut + 1..]));
        case _ =>
      }
      n := n + 1;
    }
    return Ok(req);
  }

  // --- Hosts, paths and priorities ---

  function NormalizePath(path: string): string
  {
    DropSuffix(DropSuffix(DropSuffix(DropPrefix(path, "/"), "/"), ".git"), "/")
  }

  function WithoutPort(host: string): string { host[..IndexOf(host, ':')] }

  /** Host and path of the part after any scheme. Lower-casing is a parameter. */
  function Split(lower: string -> string, rest: string): (string, Option<string>)
  {
    var slash := IndexOf(rest, '/');
    (lower(WithoutPort(rest[..slash])), if slash < |rest| then Some(rest[slash + 1..]) else None)
  }

  function ParseUri(lower: string -> string, uri: string): Option<(string, Option<string>)>
  {
    if StripPrefix(uri, "https://").Some? then Some(Split(lower, StripPrefix(uri, "https://").value))
    else if StripPrefix(uri, "http://").Some? then Some(Split(lower, StripPrefix(uri, "http://").value))
    else if ' ' !in uri && uri != "" then Some(Split(lower, uri))
    else None
  }

  // --- What they mean ---

  predicate Plain(path: string) { !("/" <= path) && !EndsWith(path, "/") && !EndsWith(path, ".git") }

  function Maybe(present: bool, s: string): string { if present then s else "" }

  function Decorated(path: string, lead: bool, git: bool, trail: bool): string
  {
    Maybe(lead, "/") + (path + Maybe(git, ".git") + Maybe(trail, "/"))
  }

  lemma PrefixDrops(s: string, p: string, present: bool)
    requires !(p <= s)
    ensures DropPrefix(Maybe(present, p) + s, p) == s
  {
    assert present ==> (p + s)[|p|..] == s && p <= p + s;
    assert !present ==> "" + s == s;
  }

  lemma SuffixDrops(s: string, p: string, present: bool)
    requires !EndsWith(s, p)
    ensures DropSuffix(s + Maybe(present, p), p) == s
  {
    assert present ==> (s + p)[|s|..] == p && (s + p)[..|s|] == s;
    assert !present ==> s + "" == s;
  }

  lemma GitNeverEndsInSlash(path: string, git: bool)
    requires Plain(path)
    ensures !EndsWith(path + Maybe(git, ".git"), "/")
  {
    var middle := path + Maybe(git, ".git");
    assert git ==> middle[|middle| - 1] == 't';
    assert !git ==> middle == path;
  }

  lemma StartsPlainly(path: string, git: bool, trail: bool)
    requires Plain(path) && path + Maybe(git, ".git") != ""
    ensures !("/" <= path + Maybe(git, ".git") + Maybe(trail, "/"))
  {
    var whole := path + Maybe(git, ".git") + Maybe(trail, "/");
    if path != "" {
      assert whole[0] == path[0];
    } else {
      assert whole[0] == '.';
    }
  }

  lemma NothingToDrop(path: string)
    requires Plain(path)
    ensures DropSuffix(path, "/") == path
  {
  }

  lemma BareSlashes(lead: bool, trail: bool)
    ensures NormalizePath(Maybe(lead, "/") + Maybe(trail, "/")) == ""
  {
    hide DropSuffix, EndsWith;
    var s := Maybe(lead, "/") + Maybe(trail, "/");
    assert s == if lead && trail then "//" else if lead || trail then "/" else "";
    var a := DropPrefix(s, "/");
    assert a == "" || a == "/";
    NothingLeft("/");
    NothingLeft(".git");
  }

  lemma NothingLeft(p: string)
    requires p != ""
    ensures DropSuffix("", p) == "" && DropSuffix(p, p) == ""
  {
  }

  /** A slash in front, a ".git" and a slash behind make no difference. */
  lemma DecorationIgnored(path: string, lead: bool, git: bool, trail: bool)
    requires Plain(path)
    ensures NormalizePath(Decorated(path, lead, git, trail)) == path
  {
    var middle := path + Maybe(git, ".git");
    if middle == "" {
      BareSlashes(lead, trail);
      assert Decorated(path, lead, git, trail) == Maybe(lead, "/") + Maybe(trail, "/");
    } else {
      hide DropPrefix, DropSuffix, Maybe, EndsWith;
      StartsPlainly(path, git, trail);
      PrefixDrops(middle + Maybe(trail, "/"), "/", lead);
      GitNeverEndsInSlash(path, git);
      SuffixDrops(middle, "/", trail);
      SuffixDrops(path, ".git", git);
      NothingToDrop(path);
    }
  }

  /** Host, optional port and optional path, written out. */
  function Authority(host: string, port: Option<string>, path: Option<string>): string
  {
    host + (if port.Some? then ":" + port.value else "") + (if path.Some? then "/" + path.value else "")
  }

  lemma SplitReads(lower: string -> string, host: string, port: Option<string>, path: Option<string>)
    requires ':' !in host && '/' !in host && (port.Some? ==> '/' !in port.value)
    ensures Split(lower, Authority(host, port, path)) == (lower(host), path)
  {
    var text := Authority(host, port, path);
    var before := host + if port.Some? then ":" + port.value else "";
    assert text == before + if path.Some? then "/" + path.value else "";
    assert '/' !in before;
    var slash := IndexOf(text, '/');
    if path.Some? {
      assert text[|before|] == '/' && text[..|before|] == before;
      IndexIs(text, '/', |before|);
      assert text[|before| + 1..] == path.value;
    } else {
      assert text == before;
      IndexNone(text, '/');
    }
    assert text[..slash] == before;
    if port.Some? {
      assert before[|host|] == ':' && before[..|host|] == host;
      IndexIs(before, ':', |host|);
    } else {
      assert before == host;
      IndexNone(host, ':');
      assert host[..|host|] == host;
    }
  }

  /** Written with either scheme or with none, a location is read back, lower-cased
      and without its port; only text with neither scheme is refused, and only
      when it is empty or has a blank. */
  lemma UriReads(lower: string -> string, host: string, port: Option<string>, path: Option<string>)
    requires ':' !in host && '/' !in host && (port.Some? ==> '/' !in port.value)
    ensures ParseUri(lower, "https://" + Authority(host, port, path)) == Some((lower(host), path))
    ensures ParseUri(lower, "http://" + Authority(host, port, path)) == Some((lower(host), path))
    ensures var bare := Authority(host, port, path);
            !("https://" <= bare) && !("http://" <= bare) ==>
              ParseUri(lower, bare) == if bare == "" || ' ' in bare then None else Some((lower(host), path))
  {
    hide Split;
    SplitReads(lower, host, port, path);
    var bare := Authority(host, port, path);
    assert ("https://" + bare)[8..] == bare && ("http://" + bare)[7..] == bare;
    assert ("http://" + bare)[4] == ':' && "https://"[4] == 's';
  }

  datatype Item = Item(id: string, uri: Option<string>)

  datatype Query = Query(lower: string -> string, host: string, path: Option<string>)

  const NO_MATCH: nat := 0
  const HOST_ONLY: nat := 1
  const HOST_AND_PATH_PREFIX: nat := 2
  const EXACT: nat := 3

  /** The priority at which an item matches; 0 when it does not. */
  function Priority(q: Query, item: Item): (p: nat)
    ensures p <= EXACT
  {
    if item.uri.None? then NO_MATCH
    else match ParseUri(q.lower, item.uri.value)
      case None => NO_MATCH
      case Some((host, path)) =>
        if host != WithoutPort(q.lower(q.host)) then NO_MATCH
        else if path.None? || q.path.None? then HOST_ONLY
        else
          var itemPath, requestPath := NormalizePath(path.value), NormalizePath(q.path.value);
          if itemPath == requestPath then EXACT
          else if itemPath <= requestPath then HOST_AND_PATH_PREFIX
          else NO_MATCH
  }

  datatype Written = Written(path: string, lead: bool, git: bool, trail: bool)
  {
    function Text(): string { Decorated(path, lead, git, trail) }
  }

  /** An item written with a path matches a request that has one by the bare
      paths alone: exactly when equal, by prefix when the item's is shorter,
      however either is decorated, whatever the port; without a path on either
      side the host decides. */
  lemma PriorityReads(q: Query, id: string, host: string, port: Option<string>, item: Option<Written>,
                      request: Option<Written>)
    requires ':' !in host && '/' !in host && (port.Some? ==> '/' !in port.value)
    requires (item.Some? ==> Plain(item.value.path)) && (request.Some? ==> Plain(request.value.path))
    requires q.path == if request.Some? then Some(request.value.Text()) else None
    ensures var text := "https://" + Authority(host, port, if item.Some? then Some(item.value.Text()) else None);
            var p := Priority(q, Item(id, Some(text)));
            if q.lower(host) != WithoutPort(q.lower(q.host)) then p == NO_MATCH
            else if item.None? || request.None? then p == HOST_ONLY
            else if item.value.path == request.value.path then p == EXACT
            else if item.value.path <= request.value.path then p == HOST_AND_PATH_PREFIX
            else p == NO_MATCH
  {
    hide ParseUri, NormalizePath, Decorated, Authority;
    UriReads(q.lower, host, port, if item.Some? then Some(item.value.Text()) else None);
    if item.Some? {
      DecorationIgnored(item.value.path, item.value.lead, item.value.git, item.value.trail);
    }
    if request.Some? {
      DecorationIgnored(request.value.path, request.value.lead, request.value.git, request.value.trail);
    }
  }

  /** Every text is a location written out. */
  lemma EveryLocationIsWritten(rest: string) returns (host: string, port: Option<string>, path: Option<string>)
    ensures rest == Authority(host, port, path)
    ensures ':' !in host && '/' !in host && (port.Some? ==> '/' !in port.value)
  {
    var slash := IndexOf(rest, '/');
    var before := rest[..slash];
    path := if slash < |rest| then Some(rest[slash + 1..]) else None;
    assert rest == before + if path.Some? then "/" + path.value else "";
    var colon := IndexOf(before, ':');
    host := before[..colon];
    port := if colon < |before| then Some(before[colon + 1..]) else None;
    assert before == host + if port.Some? then ":" + port.value else "";
    assert forall i | 0 <= i < |host| :: host[i] == before[i];
    assert port.Some? ==> forall i | 0 <= i < |port.value| :: port.value[i] == before[colon + 1 + i];
  }

  /** The scheme of a URI, if it has one of the two. */
  function SchemeOf(uri: string): string
  {
    if "https://" <= uri then "https://" else if "http://" <= uri then "http://" else ""
  }

  /** So the priority of every item whatever: its URI is a scheme or none, a host, a
      port and a path, of which scheme and port do not count, the host has to be
      the request's, and the paths are compared as they normalise. */
  lemma PriorityOfEveryUri(q: Query, id: string, uri: string)
      returns (host: string, port: Option<string>, path: Option<string>)
    ensures uri == SchemeOf(uri) + Authority(host, port, path)
    ensures ':' !in host && '/' !in host && (port.Some? ==> '/' !in port.value)
    ensures var p := Priority(q, Item(id, Some(uri)));
            if SchemeOf(uri) == "" && (uri == "" || ' ' in uri) then p == NO_MATCH
            else if q.lower(host) != WithoutPort(q.lower(q.host)) then p == NO_MATCH
            else if path.None? || q.path.None? then p == HOST_ONLY
            else if NormalizePath(path.value) == NormalizePath(q.path.value) then p == EXACT
            else if NormalizePath(path.value) <= NormalizePath(q.path.value) then p == HOST_AND_PATH_PREFIX
            else p == NO_MATCH
  {
    hide ParseUri, NormalizePath, Authority, WithoutPort;
    var scheme := SchemeOf(uri);
    assert uri == scheme + uri[|scheme|..];
    host, port, path := EveryLocationIsWritten(uri[|scheme|..]);
    UriReads(q.lower, host, port, path);
    assert scheme == "" ==> uri[|scheme|..] == uri;
  }

  lemma PrefixBack(s: string, p: string)
    ensures s == Maybe(p <= s, p) + DropPrefix(s, p)
  {
  }

  lemma SuffixBack(s: string, p: string)
    ensures s == DropSuffix(s, p) + Maybe(EndsWith(s, p), p)
  {
  }

  lemma NotDropped(s: string, p: string)
    ensures !EndsWith(s, p) ==> DropSuffix(s, p) == s
  {
  }

  /** What normalising takes off: a slash in front, and behind a slash, a ".git" and
      another slash, each exactly when it is there to take. */
  lemma NormalizeDecomposes(path: string) returns (lead: bool, inner: bool, git: bool, trail: bool)
    ensures path == Maybe(lead, "/")
                    + (NormalizePath(path) + Maybe(inner, "/") + Maybe(git, ".git") + Maybe(trail, "/"))
    ensures lead <==> "/" <= path
    ensures !trail ==> !EndsWith(NormalizePath(path) + Maybe(inner, "/") + Maybe(git, ".git"), "/")
    ensures !git ==> !EndsWith(NormalizePath(path) + Maybe(inner, "/"), ".git")
    ensures !inner ==> !EndsWith(NormalizePath(path), "/")
  {
    hide Maybe, DropPrefix, DropSuffix, EndsWith;
    lead := "/" <= path;
    PrefixBack(path, "/");
    var a := DropPrefix(path, "/");
    trail := EndsWith(a, "/");
    SuffixBack(a, "/");
    var b := DropSuffix(a, "/");
    git := EndsWith(b, ".git");
    SuffixBack(b, ".git");
    var c := DropSuffix(b, ".git");
    inner := EndsWith(c, "/");
    SuffixBack(c, "/");
    NotDropped(a, "/");
    NotDropped(b, ".git");
    NotDropped(c, "/");
  }

  // --- The selection ---

  function Best(q: Query, items: seq<Item>): (p: nat)
    ensures forall x | x in items :: Priority(q, x) <= p
    ensures p > 0 ==> exists x | x in items :: Priority(q, x) == p
  {
    if items == [] then 0
    else
      var n := |items| - 1;
      assert items == items[..n] + [items[n]];
      Max(Best(q, items[..n]), Priority(q, items[n]))
  }

  function Attaining(q: Query, items: seq<Item>, p: nat): seq<Item>
  {
    if items == [] then []
    else
      var n := |items| - 1;
      Attaining(q, items[..n], p) + if Priority(q, items[n]) == p then [items[n]] else []
  }

  /** Nothing, one item's id, or an error naming how many items tie. */
  function Outcome(q: Query, items: seq<Item>): Result<Option<string>, nat>
  {
    var best := Best(q, items);
    var top := Attaining(q, items, best);
    if best == 0 then Ok(None)
    else if |top| == 1 then Ok(Some(top[0].id))
    else Err(|top|)
  }

  // --- The loop over the items ---

  datatype UriMatch = UriMatch(priority: nat, itemId: string)

  function Matches(q: Query, items: seq<Item>): seq<UriMatch>
  {
    if items == [] then []
    else
      var n := |items| - 1;
      Matches(q, items[..n])
      + if Priority(q, items[n]) > 0 then [UriMatch(Priority(q, items[n]), items[n].id)] else []
  }

  function Highest(ms: seq<UriMatch>): nat
  {
    if ms == [] then 0 else Max(Highest(ms[..|ms| - 1]), ms[|ms| - 1].priority)
  }

  function IdsAt(ms: seq<UriMatch>, p: nat): seq<string>
  {
    if ms == [] then []
    else IdsAt(ms[..|ms| - 1], p) + if ms[|ms| - 1].priority == p then [ms[|ms| - 1].itemId] else []
  }

  /** The list of matches carries everything the outcome depends on. */
  lemma {:induction false} MatchesSuffice(q: Query, items: seq<Item>, p: nat)
    requires p > 0
    ensures Highest(Matches(q, items)) == Best(q, items)
    ensures |IdsAt(Matches(q, items), p)| == |Attaining(q, items, p)|
    ensures forall i | 0 <= i < |Attaining(q, items, p)| ::
              IdsAt(Matches(q, items), p)[i] == Attaining(q, items, p)[i].id
    ensures Matches(q, items) != [] <==> Best(q, items) > 0
  {
    hide Priority;
    if items != [] {
      var n := |items| - 1;
      MatchesSuffice(q, items[..n], p);
      var ms := Matches(q, items);
      if Priority(q, items[n]) > 0 {
        assert ms[..|ms| - 1] == Matches(q, items[..n]);
      } else {
        assert ms == Matches(q, items[..n]);
      }
    }
  }

  /** Collects the matches, finds their highest priority, keeps those at it. */
  method MatchVaultItems(q: Query, items: seq<Item>) returns (r: Result<Option<string>, nat>)
    ensures r == Outcome(q, items)
  {
    var requestHost := WithoutPort(q.lower(q.host));
    var matches: seq<UriMatch> := [];
    for i := 0 to |items|
      invariant matches == Matches(q, items[..i])
    {
      assert items[..i + 1][..i] == items[..i] && items[..i + 1][i] == items[i];
      if items[i].uri.None? {
        continue;
      }
      var parsed := ParseUri(q.lower, items[i].uri.value);
      if parsed.None? {
        continue;
      }
      var (itemHost, itemPath) := parsed.value;
      if itemHost != requestHost {
        continue;
      }
      var priority := HOST_ONLY;
      if itemPath.Some? && q.path.Some? {
        var normItem := NormalizePath(itemPath.value);
        var normReq := NormalizePath(q.path.value);
        if normItem == normReq {
          priority := EXACT;
        } else if normItem <= normReq {
          priority := HOST_AND_PATH_PREFIX;
        } else {
          continue;
        }
      }
      matches := matches + [UriMatch(priority, items[i].id)];
    }
    assert items[..|items|] == items;
    MatchesSuffice(q, items, Max(1, Best(q, items)));
    if matches == [] {
      return Ok(None);
    }
    var best := IdsAt(matches, Highest(matches));
    return if |best| == 1 then Ok(Some(best[0])) else Err(|best|);
  }

  // --- What the outcome means ---

  lemma {:induction false} AttainingCount(q: Query, items: seq<Item>, p: nat)
    ensures forall x :: multiset(Attaining(q, items, p))[x] == if Priority(q, x) == p then multiset(items)[x] else 0
  {
    hide Priority;
    if items != [] {
      var n := |items| - 1;
      AttainingCount(q, items[..n], p);
      assert items == items[..n] + [items[n]];
    }
  }

  /** The positions of the items matching at this priority. */
  function Indices(q: Query, items: seq<Item>, p: nat): set<nat>
  {
    set i: nat | i < |items| && Priority(q, items[i]) == p
  }

  lemma {:induction false} AttainingIndices(q: Query, items: seq<Item>, p: nat)
    ensures |Attaining(q, items, p)| == |Indices(q, items, p)|
    decreases |items|
  {
    hide Priority;
    if items == [] {
      assert Indices(q, items, p) == {};
    } else {
      var n := |items| - 1;
      AttainingIndices(q, items[..n], p);
      assert Indices(q, items, p) == Indices(q, items[..n], p) + if Priority(q, items[n]) == p then {n} else {};
    }
  }

  /** Exactly one item attains the highest priority of all. */
  predicate UniqueBest(q: Query, items: seq<Item>, i: nat)
    requires i < |items|
  {
    Priority(q, items[i]) > 0 && forall j | 0 <= j < |items| && j != i :: Priority(q, items[j]) < Priority(q, items[i])
  }

  /** Two different positions attain it. */
  predicate TiedAt(q: Query, items: seq<Item>, i: nat, j: nat)
    requires i < |items| && j < |items|
  {
    && i != j && Priority(q, items[i]) == Priority(q, items[j]) > 0
    && forall k | 0 <= k < |items| :: Priority(q, items[k]) <= Priority(q, items[i])
  }

  /** An id comes back exactly for a unique best match, nothing exactly when no
      item matches, an error exactly on a tie; the error counts those tied. */
  lemma OutcomeCharacterised(q: Query, items: seq<Item>)
    ensures Outcome(q, items) == Ok(None) <==> forall x | x in items :: Priority(q, x) == 0
    ensures forall id :: Outcome(q, items) == Ok(Some(id)) <==>
              exists i | 0 <= i < |items| :: UniqueBest(q, items, i) && items[i].id == id
    ensures Outcome(q, items).Err? <==> exists i, j | 0 <= i < |items| && 0 <= j < |items| :: TiedAt(q, items, i, j)
    ensures Outcome(q, items).Err? ==> Outcome(q, items).error == |Indices(q, items, Best(q, items))| >= 2
  {
    hide Priority, Best, Attaining;
    var best := Best(q, items);
    AttainingIndices(q, items, best);
    var at := Indices(q, items, best);
    if best > 0 {
      var x :| x in items && Priority(q, x) == best;
      var i :| 0 <= i < |items| && items[i] == x;
      assert i in at;
      if |at| == 1 {
        SingletonOf(at, i);
        forall j | 0 <= j < |items| && j != i ensures Priority(q, items[j]) < best {
          assert items[j] in items;
          assert j !in at;
        }
        assert UniqueBest(q, items, i);
        TopIsAt(q, items, best, i);
      } else {
        var j := AnotherOf(at, i);
        assert TiedAt(q, items, i, j);
      }
    }
  }

  lemma SingletonOf(s: set<nat>, x: nat)
    requires x in s && |s| == 1
    ensures s == {x}
  {
    assert |s - {x}| == 0;
  }

  lemma AnotherOf(s: set<nat>, x: nat) returns (y: nat)
    requires x in s && |s| != 1
    ensures y in s && y != x && |s| >= 2
  {
    assert s == s - {x} + {x};
    y :| y in s - {x};
    assert |s - {x}| >= 1;
  }

  lemma TopIsAt(q: Query, items: seq<Item>, p: nat, i: nat)
    requires i < |items| && Priority(q, items[i]) == p && |Attaining(q, items, p)| == 1
    ensures Attaining(q, items, p) == [items[i]]
  {
    hide Priority;
    AttainingCount(q, items, p);
    assert items[i] in multiset(items);
    assert items[i] in multiset(Attaining(q, items, p));
  }

  // --- Invariance ---

  lemma SameMembersSameBest(q: Query, a: seq<Item>, b: seq<Item>)
    requires forall x :: x in a <==> x in b
    ensures Best(q, a) == Best(q, b)
  {
    hide Priority;
  }

  lemma SameTop(s: seq<Item>, t: seq<Item>)
    requires multiset(s) == multiset(t)
    ensures |s| == |t| && (|s| == 1 ==> s == t)
  {
    assert |s| == |multiset(s)| && |t| == |multiset(t)|;
    if |s| == 1 {
      assert s[0] in multiset(t);
    }
  }

  /** The order of the items does not matter. */
  lemma PermutationInvariant(q: Query, a: seq<Item>, b: seq<Item>)
    requires multiset(a) == multiset(b)
    ensures Outcome(q, a) == Outcome(q, b)
  {
    hide Priority, Best, Attaining;
    forall x ensures x in a <==> x in b {
      assert x in a <==> x in multiset(a);
      assert x in b <==> x in multiset(b);
    }
    SameMembersSameBest(q, a, b);
    var p := Best(q, a);
    AttainingCount(q, a, p);
    AttainingCount(q, b, p);
    assert multiset(Attaining(q, a, p)) == multiset(Attaining(q, b, p));
    SameTop(Attaining(q, a, p), Attaining(q, b, p));
  }

  lemma Added(q: Query, a: seq<Item>, x: Item, p: nat)
    ensures Best(q, a + [x]) == Max(Best(q, a), Priority(q, x))
    ensures Attaining(q, a + [x], p) == Attaining(q, a, p) + if Priority(q, x) == p then [x] else []
  {
    hide Priority;
    assert (a + [x])[..|a|] == a;
  }

  lemma SomethingAttains(q: Query, items: seq<Item>, p: nat)
    ensures p > Best(q, items) ==> Attaining(q, items, p) == []
    ensures p == Best(q, items) > 0 ==> Attaining(q, items, p) != []
  {
    hide Priority, Best, Attaining;
    AttainingCount(q, items, p);
    var s := Attaining(q, items, p);
    if s != [] {
      assert s[0] in multiset(s);
      assert s[0] in multiset(items);
      assert s[0] in items;
    }
    if p == Best(q, items) > 0 {
      var y :| y in items && Priority(q, y) == p;
      assert y in multiset(items);
      assert y in multiset(s);
    }
  }

  /** Adding one item, wherever it goes, leaves the outcome alone exactly when it
      does not match, matches below the best, or beats the sole best match while
      carrying the same id. */
  lemma AddedItemIgnoredIff(q: Query, a: seq<Item>, b: seq<Item>, x: Item)
    ensures Outcome(q, a + [x] + b) == Outcome(q, a + b) <==>
            var p := Priority(q, x);
            p == 0 || p < Best(q, a + b) || (p > Best(q, a + b) && Outcome(q, a + b) == Ok(Some(x.id)))
  {
    hide Priority, Best, Attaining;
    assert multiset(a + [x] + b) == multiset((a + b) + [x]);
    PermutationInvariant(q, a + [x] + b, (a + b) + [x]);
    var best := Best(q, a + b);
    Added(q, a + b, x, Max(best, Priority(q, x)));
    SomethingAttains(q, a + b, best);
    SomethingAttains(q, a + b, Priority(q, x));
  }

  // --- What the helper is given to choose from ---

  datatype Kind = LoginKind | NoteKind | CardKind | IdentityKind | SshKeyKind

  /** What the SDK lists. It has no URIs. */
  datatype View = View(id: Option<string>, name: string, kind: Kind, subtitle: string)

  datatype Summary = Summary(id: string, name: string, kind: Kind, username: Option<string>, uri: Option<string>)

  function Summarise(v: View): Summary
  {
    Summary(if v.id.Some? then v.id.value else "", v.name, v.kind,
            if v.subtitle == "" then None else Some(v.subtitle), None)
  }

  predicate Contains(s: string, part: string) { exists i | 0 <= i <= |s| :: part <= s[i..] }

  predicate Passes(lower: string -> string, kind: Option<Kind>, search: Option<string>, s: Summary)
  {
    && (kind.Some? ==> s.kind == kind.value)
    && (search.Some? ==>
          Contains(lower(s.name), lower(search.value))
          || (s.username.Some? && Contains(lower(s.username.value), lower(search.value))))
  }

  function Listed(lower: string -> string, views: seq<View>, kind: Option<Kind>, search: Option<string>): seq<Summary>
  {
    if views == [] then []
    else
      var s := Summarise(views[|views| - 1]);
      Listed(lower, views[..|views| - 1], kind, search) + if Passes(lower, kind, search, s) then [s] else []
  }

  /** One item: it is listed exactly when it is of the kind asked for and its name or its
      user name has the text searched for in it, whatever the case; it keeps id, name
      and kind, its subtitle becomes the user name, and it gets no URI. */
  lemma ListsOne(lower: string -> string, v: View, kind: Option<Kind>, search: Option<string>)
    ensures var shown := (kind.None? || v.kind == kind.value)
                         && (search.None? || Contains(lower(v.name), lower(search.value))
                             || (v.subtitle != "" && Contains(lower(v.subtitle), lower(search.value))));
            var id := if v.id.Some? then v.id.value else "";
            var user := if v.subtitle != "" then Some(v.subtitle) else None;
            Listed(lower, [v], kind, search) == if shown then [Summary(id, v.name, v.kind, user, None)] else []
  {
    hide Contains;
    assert Listed(lower, [v][..0], kind, search) == [];
  }

  /** And a longer vault lists as its parts do, in order. */
  lemma {:induction false} ListsParts(lower: string -> string, a: seq<View>, b: seq<View>, kind: Option<Kind>,
                                      search: Option<string>)
    ensures Listed(lower, a + b, kind, search) == Listed(lower, a, kind, search) + Listed(lower, b, kind, search)
    decreases |b|
  {
    hide Passes;
    if b == [] {
      assert a + b == a;
    } else {
      var n := |b| - 1;
      assert (a + b)[..|a + b| - 1] == a + b[..n];
      ListsParts(lower, a, b[..n], kind, search);
    }
  }

  /** The vault listing: what the filters let through, in order. */
  method ListVault(lower: string -> string, views: seq<View>, kind: Option<Kind>, search: Option<string>)
    returns (items: seq<Summary>)
    ensures items == Listed(lower, views, kind, search)
  {
    items := [];
    for n := 0 to |views|
      invariant items == Listed(lower, views[..n], kind, search)
    {
      assert views[..n + 1][..n] == views[..n] && views[..n + 1][n] == views[n];
      var s := Summarise(views[n]);
      if kind.Some? && s.kind != kind.value {
        continue;
      }
      if search.Some? {
        var wanted := lower(search.value);
        if !Contains(lower(s.name), wanted) && (s.username.None? || !Contains(lower(s.username.value), wanted)) {
          continue;
        }
      }
      items := items + [s];
    }
    assert views[..|views|] == views;
  }

  /** No listed item has a URI, whatever the vault and the filters. */
  lemma {:induction false} ListedHasNoUris(lower: string -> string, views: seq<View>, kind: Option<Kind>,
                                           search: Option<string>)
    ensures forall x | x in Listed(lower, views, kind, search) :: x.uri.None?
  {
    hide Passes;
    if views != [] {
      ListedHasNoUris(lower, views[..|views| - 1], kind, search);
    }
  }

  /** The helper's own filter, by the user name git may have given. */
  function Hinted(items: seq<Summary>, hint: Option<string>): seq<Item>
  {
    if items == [] then []
    else
      var n := |items| - 1;
      Hinted(items[..n], hint)
      + if hint.None? || items[n].username == hint then [Item(items[n].id, items[n].uri)] else []
  }

  /** An item passes that filter exactly when git gave no user name or the item's. */
  lemma HintsOne(x: Summary, hint: Option<string>)
    ensures Hinted([x], hint) == if hint.None? || x.username == hint then [Item(x.id, x.uri)] else []
  {
    assert Hinted([x][..0], hint) == [];
  }

  lemma {:induction false} HintsParts(a: seq<Summary>, b: seq<Summary>, hint: Option<string>)
    ensures Hinted(a + b, hint) == Hinted(a, hint) + Hinted(b, hint)
    decreases |b|
  {
    if b == [] {
      assert a + b == a;
    } else {
      var n := |b| - 1;
      assert (a + b)[..|a + b| - 1] == a + b[..n];
      HintsParts(a, b[..n], hint);
    }
  }

  lemma {:induction false} HintedKeepsUris(items: seq<Summary>, hint: Option<string>)
    requires forall x | x in items :: x.uri.None?
    ensures forall x | x in Hinted(items, hint) :: x.uri.None?
  {
    if items != [] {
      HintedKeepsUris(items[..|items| - 1], hint);
    }
  }

  /** `grimoire` as a git credential helper, from the listing to the choice: for
      every vault, request and user name it finds nothing, because the listing
      never fills in a URI. */
  method ChooseCredential(q: Query, views: seq<View>, hint: Option<string>) returns (r: Result<Option<string>, nat>)
    ensures r == Ok(None)
  {
    var items := ListVault(q.lower, views, Some(LoginKind), None);
    ListedHasNoUris(q.lower, views, Some(LoginKind), None);
    HintedKeepsUris(items, hint);
    ListedItemsNeverMatch(q, Hinted(items, hint));
    r := MatchVaultItems(q, Hinted(items, hint));
  }

  lemma ListedItemsNeverMatch(q: Query, items: seq<Item>)
    requires forall x | x in items :: x.uri.None?
    ensures Outcome(q, items) == Ok(None)
  {
    OutcomeCharacterised(q, items);
  }
}
