/**
 * The set-up script's database URL discovery, schema migration retries and
 * storage bucket creation (scripts/init_db.py). The fallback URL the script
 * carries is a parameter here, never a constant.
 */
module InitDb {
  import opened Wrappers
  import Text

  /** The first (stripped) line holding both "DATABASE_URL" and "=", as a value. */
  predicate Qualifies(line: string) {
    Text.Contains(Text.Strip(line), "DATABASE_URL") && '=' in Text.Strip(line)
  }

  /** The value the manual scan extracts: everything after the first "=". */
  function ValueOf(line: string): string
    requires Qualifies(line)
  {
    Text.AfterFirst(Text.Strip(line), '=')
  }

  /** The first position whose line satisfies `p`, if any. */
  function FirstWhere(lines: seq<string>, p: string -> bool): (r: Option<nat>)
    ensures r.Some? ==> r.value < |lines| && p(lines[r.value])
    ensures r.Some? ==> forall j | 0 <= j < r.value :: !p(lines[j])
    ensures r.None? <==> forall j | 0 <= j < |lines| :: !p(lines[j])
  {
    if lines == [] then None
    else if p(lines[0]) then Some(0)
    else
      match FirstWhere(lines[1..], p)
      case None => None
      case Some(k) => Some(k + 1)
  }

  function FirstQualifying(lines: seq<string>): Option<nat> {
    FirstWhere(lines, Qualifies)
  }

  /** The URL the manual parse finds, if any. */
  function ScannedUrl(lines: seq<string>): Option<string> {
    match FirstQualifying(lines)
    case None => None
    case Some(i) => Some(ValueOf(lines[i]))
  }

  /**
   * The manual `.env` parse: strip each line; a line mentioning DATABASE_URL
   * but lacking "=" does not stop the scan.
   */
  method ScanEnvLines(lines: seq<string>) returns (url: Option<string>)
    ensures url == ScannedUrl(lines)
  {
    var i := 0;
    while i < |lines|
      invariant 0 <= i <= |lines|
      invariant forall j | 0 <= j < i :: !Qualifies(lines[j])
    {
      var line := Text.Strip(lines[i]);
      if Text.Contains(line, "DATABASE_URL") && '=' in line {
        FirstWhereAt(lines, Qualifies, i);
        return Some(Text.AfterFirst(line, '='));
      }
      i := i + 1;
    }
    return None;
  }

  lemma {:induction false} FirstWhereAt(lines: seq<string>, p: string -> bool, i: nat)
    requires i < |lines| && p(lines[i])
    requires forall j | 0 <= j < i :: !p(lines[j])
    ensures FirstWhere(lines, p) == Some(i)
  {
    if i > 0 {
      FirstWhereAt(lines[1..], p, i - 1);
    }
  }

  /** A value is "truthy": present and non-empty. */
  predicate Truthy(v: Option<string>) {
    v.Some? && v.value != ""
  }

  /**
   * The module-level `DATABASE_URL`: the `load_dotenv` value, else the manual
   * scan when the file exists (`lines` is None when reading it raised), else
   * the fallback.
   */
  function DatabaseUrl(dotenv: Option<string>, envExists: bool, lines: Option<seq<string>>,
                       fallbackUrl: string): (url: string)
    ensures Truthy(dotenv) ==> url == dotenv.value
    ensures !Truthy(dotenv) && envExists && lines.Some? && Truthy(ScannedUrl(lines.value)) ==>
      url == ScannedUrl(lines.value).value
    ensures !Truthy(dotenv) && (!envExists || lines.None?) ==> url == fallbackUrl
    ensures !Truthy(dotenv) && envExists && lines.Some? && !Truthy(ScannedUrl(lines.value)) ==>
      url == fallbackUrl
  {
    var scanned :=
      if !Truthy(dotenv) && envExists && lines.Some? then
        (match ScannedUrl(lines.value) case None => dotenv case Some(u) => Some(u))
      else dotenv;
    if Truthy(scanned) then scanned.value else fallbackUrl
  }

  /** A `.env` line `DATABASE_URL=v` yields `v`, even when `v` itself holds "=". */
  lemma AssignmentLineYieldsValue(v: string)
    requires v != [] && !Text.IsSpace(v[0]) && !Text.IsSpace(v[|v| - 1])
    ensures var line := "DATABASE_URL=" + v;
      Qualifies(line) && ValueOf(line) == v
  {
    var line := "DATABASE_URL=" + v;
    Text.StripUnchanged(line);
    KeyLineParts(v);
    Text.IndexOfAfterFree("DATABASE_URL", "=" + v, '=');
  }

  lemma KeyLineParts(v: string)
    ensures var line := "DATABASE_URL=" + v;
      && line == "DATABASE_URL" + ("=" + v)
      && Text.Contains(line, "DATABASE_URL") && '=' in line
  {
    var line := "DATABASE_URL=" + v;
    assert line[..12] == "DATABASE_URL";
    Text.ContainsAt(line, "DATABASE_URL", 0);
    assert line[12] == '=';
  }

  const PoolerPort: string := ":6543"
  const DirectPort: string := ":5432"

  /** `url.replace(":6543", ":5432")` */
  function SwapPort(url: string): string {
    Text.Replace(url, PoolerPort, DirectPort)
  }

  function WithSwap(url: string): (r: seq<string>)
    ensures Text.Contains(url, PoolerPort) ==> r == [url, SwapPort(url)]
    ensures !Text.Contains(url, PoolerPort) ==> r == [url]
  {
    if Text.Contains(url, PoolerPort) then [url, SwapPort(url)] else [url]
  }

  /**
   * `urls_to_try`: the URL and its port-swapped copy, then, when urlparse gives
   * a host name that resolves, the same two built on the resolved address.
   * `hostnameOf` is None when urlparse gives no host name; `resolve` is None
   * when the DNS lookup raises.
   */
  function Candidates(url: string, hostnameOf: string -> Option<string>,
                      resolve: string -> Option<string>): (c: seq<string>)
    ensures |WithSwap(url)| <= |c| <= 4 && c[0] == url
    ensures c[..|WithSwap(url)|] == WithSwap(url)
    ensures (hostnameOf(url).None? || hostnameOf(url).value == "" || resolve(hostnameOf(url).value).None?)
      ==> c == WithSwap(url)
    ensures hostnameOf(url).Some? && hostnameOf(url).value != "" && resolve(hostnameOf(url).value).Some? ==>
      c == WithSwap(url)
           + WithSwap(Text.Replace(url, hostnameOf(url).value, resolve(hostnameOf(url).value).value))
  {
    var direct := WithSwap(url);
    match hostnameOf(url)
    case None => direct
    case Some(host) =>
      if host == "" then direct
      else
        match resolve(host)
        case None => direct
        case Some(ip) => direct + WithSwap(Text.Replace(url, host, ip))
  }

  /** The logged form of a URL: `"..." + url.split("@")[1]` when it holds "@". */
  function Mask(url: string): (m: string)
    ensures '@' !in url ==> m == url
    ensures '@' in url ==> m == "..." + Text.Before(Text.AfterFirst(url, '@'), '@')
  {
    if '@' in url then
      var parts := Text.Split(url, '@');
      AfterFirstSplit(url);
      "..." + parts[1]
    else url
  }

  lemma AfterFirstSplit(url: string)
    requires '@' in url
    ensures |Text.Split(url, '@')| >= 2
    ensures Text.Split(url, '@')[1] == Text.Before(Text.AfterFirst(url, '@'), '@')
  {
    var i := Text.IndexOf(url, '@');
    assert Text.Split(url, '@') == [url[..i]] + Text.Split(url[i + 1..], '@');
  }

  /** The credentials before the "@" never reach the log. */
  lemma MaskHidesCredentials(credentials: string, host: string)
    requires '@' !in credentials && '@' !in host
    ensures Mask(credentials + "@" + host) == "..." + host
  {
    var url := credentials + "@" + host;
    assert url == credentials + ['@'] + host;
    Text.SplitAfterFree(credentials, host, '@');
    assert '@' in url by { assert url[|credentials|] == '@'; }
    AfterFirstSplit(url);
  }

  /**
   * `run_schema_migration()`: the candidates are tried in order until one
   * connects and applies the schema (`applies`). `attempts` is the masked URL
   * logged for each try.
   */
  method RunSchemaMigration(url: string, hostnameOf: string -> Option<string>,
                            resolve: string -> Option<string>, applies: string -> bool)
    returns (ok: bool, attempts: seq<string>)
    ensures url == "" ==> !ok && attempts == []
    ensures url != "" ==>
      var c := Candidates(url, hostnameOf, resolve);
      (ok <==> exists i | 0 <= i < |c| :: applies(c[i]))
      && |attempts| <= |c|
      && (forall i | 0 <= i < |attempts| :: attempts[i] == Mask(c[i]))
      && (forall i | 0 <= i < |attempts| - 1 :: !applies(c[i]))
      && (ok ==> |attempts| > 0 && applies(c[|attempts| - 1]))
      && (!ok ==> |attempts| == |c|)
  {
    if url == "" {
      return false, [];
    }
    var c := Candidates(url, hostnameOf, resolve);
    ok, attempts := TryInOrder(c, applies);
  }

  /** The loop `for url in urls_to_try`: each candidate is logged masked, then tried. */
  method TryInOrder(c: seq<string>, applies: string -> bool) returns (ok: bool, attempts: seq<string>)
    ensures ok <==> exists i | 0 <= i < |c| :: applies(c[i])
    ensures |attempts| <= |c|
    ensures forall i | 0 <= i < |attempts| :: attempts[i] == Mask(c[i])
    ensures forall i | 0 <= i < |attempts| - 1 :: !applies(c[i])
    ensures ok ==> |attempts| > 0 && applies(c[|attempts| - 1])
    ensures !ok ==> |attempts| == |c|
  {
    attempts := [];
    var i := 0;
    while i < |c|
      invariant 0 <= i <= |c| && |attempts| == i
      invariant forall j | 0 <= j < i :: attempts[j] == Mask(c[j]) && !applies(c[j])
    {
      attempts := attempts + [Mask(c[i])];
      if applies(c[i]) {
        return true, attempts;
      }
      i := i + 1;
    }
    return false, attempts;
  }

  const PhotosBucket: string := "photos"

  /** The project's storage buckets. */
  class BucketStore {
    var buckets: set<string>

    constructor (buckets: set<string>)
      ensures this.buckets == buckets
    {
      this.buckets := buckets;
    }

    /**
     * `create_storage_bucket()`: "photos" is created only when it is absent.
     * `listRaises` and `createRaises` stand for the two calls failing; both
     * are caught.
     */
    method CreateStorageBucket(listRaises: bool, createRaises: bool)
      modifies this
      ensures PhotosBucket in old(buckets) || listRaises || createRaises ==> buckets == old(buckets)
      ensures PhotosBucket !in old(buckets) && !listRaises && !createRaises ==>
        buckets == old(buckets) + {PhotosBucket}
      ensures !listRaises && !createRaises ==> PhotosBucket in buckets
    {
      if listRaises {
        return;
      }
      if PhotosBucket !in buckets && !createRaises {
        buckets := buckets + {PhotosBucket};
      }
    }
  }
}
