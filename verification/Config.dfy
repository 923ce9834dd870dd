/** The configuration file: the loader, and the rewriter that must agree with it. */
module Configs {
  import opened CString

  const MAX_LINE: nat := 512

  datatype Config = Config(port: CInt, dbPort: CInt, dbHost: Option<string>, dbDatabase: Option<string>,
                           dbUser: Option<string>, dbPass: Option<string>)

  const DEFAULT: Config := Config(0, 0, None, None, None, None)

  datatype Key = Port | DbPort | DbHost | DbDatabase | DbUser | DbPass

  datatype Setting = Number(n: CInt) | Text(s: Option<string>)

  function Name(k: Key): string {
    match k
    case Port => "PORT"
    case DbPort => "DB_PORT"
    case DbHost => "DB_HOST"
    case DbDatabase => "DB_DATABASE"
    case DbUser => "DB_USER"
    case DbPass => "DB_PASS"
  }

  function KeyOf(name: string): (k: Option<Key>)
    ensures k.Some? ==> Name(k.value) == name
    ensures k.None? ==> forall k' :: Name(k') != name
  {
    if name == "PORT" then Some(Port)
    else if name == "DB_HOST" then Some(DbHost)
    else if name == "DB_DATABASE" then Some(DbDatabase)
    else if name == "DB_PORT" then Some(DbPort)
    else if name == "DB_USER" then Some(DbUser)
    else if name == "DB_PASS" then Some(DbPass)
    else None
  }

  lemma KeyOfName(k: Key)
    ensures KeyOf(Name(k)) == Some(k)
  {
  }

  function Field(c: Config, k: Key): Setting {
    match k
    case Port => Number(c.port)
    case DbPort => Number(c.dbPort)
    case DbHost => Text(c.dbHost)
    case DbDatabase => Text(c.dbDatabase)
    case DbUser => Text(c.dbUser)
    case DbPass => Text(c.dbPass)
  }

  /** What the loader stores for a key whose value is the text `v`. */
  function Assign(c: Config, k: Key, v: string): (r: Config)
    ensures Field(r, k) == match k { case Port => Number(Atoi(v)) case DbPort => Number(Atoi(v)) case _ => Text(Some(v)) }
    ensures forall k' :: k' != k ==> Field(r, k') == Field(c, k')
  {
    match k
    case Port => c.(port := Atoi(v))
    case DbPort => c.(dbPort := Atoi(v))
    case DbHost => c.(dbHost := Some(v))
    case DbDatabase => c.(dbDatabase := Some(v))
    case DbUser => c.(dbUser := Some(v))
    case DbPass => c.(dbPass := Some(v))
  }

  /** The text the rewriter prints for a key: `%d`, or `%s` with a missing string as empty. */
  function Shown(c: Config, k: Key): string {
    match Field(c, k)
    case Number(n) => Decimal(n)
    case Text(s) => OrEmpty(s)
  }

  function Rendered(c: Config, k: Key): string {
    Name(k) + "=" + Shown(c, k) + "\n"
  }

  // ---------- lines ----------

  /** `trim_newline`: without the line feeds and carriage returns at the end. */
  function Trim(s: string): (r: string)
    ensures r <= s
  {
    if s != "" && (s[|s| - 1] == '\n' || s[|s| - 1] == '\r') then Trim(s[..|s| - 1]) else s
  }

  /** `prepare_line`: without white space, up to the first `#`. */
  function Prepare(s: string): (r: string)
    ensures |r| <= |s|
    ensures forall i :: 0 <= i < |r| ==> r[i] in s && !IsSpace(r[i]) && r[i] != '#'
  {
    if s == "" || s[0] == '#' then ""
    else if IsSpace(s[0]) then Prepare(s[1..])
    else [s[0]] + Prepare(s[1..])
  }

  /** A prepared line cut at its first `=`, if the key is known. */
  function Cut(text: string): Option<(Key, string)> {
    match StrChr(text, '=')
    case None => None
    case Some(e) => match KeyOf(text[..e]) case None => None case Some(k) => Some((k, text[e + 1..]))
  }

  function Parse(line: string): Option<(Key, string)> {
    Cut(Prepare(Trim(CStr(line))))
  }

  method TrimNewline(str: array<char>)
    requires NUL in str[..]
    modifies str
    ensures CStr(str[..]) == Trim(CStr(old(str[..])))
    ensures NUL in str[..]
  {
    ghost var was := CStr(str[..]);
    CStrAt(str[..]);
    var len := |CStr(str[..])|;
    while len > 0 && (str[len - 1] == '\n' || str[len - 1] == '\r')
      invariant 0 <= len <= |was| < str.Length && str[..len] == was[..len] && str[len] == NUL
      invariant Trim(was[..len]) == Trim(was)
    {
      assert was[..len][..len - 1] == was[..len - 1];
      len := len - 1;
      str[len] := NUL;
    }
    CStrIs(str[..], len);
  }

  lemma CStrAt(s: string)
    requires NUL in s
    ensures |CStr(s)| < |s| && s[|CStr(s)|] == NUL && s[..|CStr(s)|] == CStr(s)
  {
  }

  lemma {:induction false} CStrIs(s: string, n: nat)
    requires n < |s| && s[n] == NUL && NulFree(s[..n])
    ensures CStr(s) == s[..n]
  {
    if n > 0 {
      assert s[0] == s[..n][0];
      assert s[1..][..n - 1] == s[..n][1..];
      CStrIs(s[1..], n - 1);
    }
  }

  method PrepareLine(line: array<char>)
    requires NUL in line[..]
    modifies line
    ensures CStr(line[..]) == Prepare(CStr(old(line[..])))
  {
    hide Prepare, IsSpace, CStr;
    ghost var was := CStr(line[..]);
    CStrAt(line[..]);
    PrepareEnds();
    assert was[0..] == was;
    var src, dst := 0, 0;
    while line[src] != NUL
      invariant 0 <= dst <= src <= |was| < line.Length
      invariant forall i :: src <= i < |was| ==> line[i] == was[i]
      invariant line[|was|] == NUL
      invariant line[..dst] + Prepare(was[src..]) == Prepare(was)
      decreases |was| - src
    {
      PrepareStep(was, src);
      if line[src] == '#' {
        break;
      }
      if !IsSpace(line[src]) {
        ghost var done := line[..dst];
        line[dst] := line[src];
        dst := dst + 1;
        assert line[..dst] == done + [was[src]];
        Regroup(done, was[src], Prepare(was[src + 1..]));
      }
      src := src + 1;
    }
    assert Prepare(was[src..]) == "";
    line[dst] := NUL;
    PreparedIsNulFree(was);
    assert line[..][..dst] == line[..dst] == Prepare(was);
    CStrIs(line[..], dst);
  }

  lemma Regroup(s: string, c: char, t: string)
    ensures s + [c] + t == s + ([c] + t)
  {
  }

  lemma PrepareEnds()
    ensures Prepare("") == ""
  {
  }

  lemma PrepareStep(s: string, i: nat)
    requires i < |s|
    ensures Prepare(s[i..]) == if s[i] == '#' then ""
                               else if IsSpace(s[i]) then Prepare(s[i + 1..])
                               else [s[i]] + Prepare(s[i + 1..])
  {
    assert s[i..][1..] == s[i + 1..];
  }

  lemma PreparedIsNulFree(s: string)
    requires NulFree(s)
    ensures NulFree(Prepare(s))
  {
    forall i | 0 <= i < |Prepare(s)|
      ensures Prepare(s)[i] != NUL
    {
      assert Prepare(s)[i] in s;
    }
  }

  /** The number of characters `fgets(line, 512, file)` takes from a file at `rest`. */
  function ChunkLen(rest: string): (n: nat)
    requires rest != ""
    ensures 0 < n <= |rest| && n < MAX_LINE
    ensures '\n' !in rest[..n - 1]
    ensures n < |rest| && n < MAX_LINE - 1 ==> rest[n - 1] == '\n'
  {
    var most := if |rest| < MAX_LINE - 1 then |rest| else MAX_LINE - 1;
    match StrChr(rest[..most], '\n')
    case None => most
    case Some(k) => assert rest[..most][..k] == rest[..k]; k + 1
  }

  method Fgets(line: array<char>, file: string, pos: nat) returns (n: nat)
    requires pos < |file| && line.Length == MAX_LINE
    modifies line
    ensures n == ChunkLen(file[pos..]) && pos + n <= |file|
    ensures line[..n] == file[pos..pos + n] && line[n] == NUL
    ensures CStr(line[..]) == CStr(file[pos..pos + n])
  {
    n := ChunkLen(file[pos..]);
    forall i | 0 <= i < n {
      line[i] := file[pos + i];
    }
    line[n] := NUL;
    CStrBeforeNul(line[..], file[pos..pos + n]);
  }

  lemma {:induction false} CStrBeforeNul(s: string, t: string)
    requires |t| < |s| && t == s[..|t|] && s[|t|] == NUL
    ensures CStr(s) == CStr(t)
  {
    if t != "" && t[0] != NUL {
      CStrBeforeNul(s[1..], t[1..]);
    }
  }

  // ---------- load_config ----------

  function LoadLine(c: Config, line: string): Config {
    match Parse(line)
    case None => c
    case Some((k, v)) => Assign(c, k, v)
  }

  function LoadFrom(c: Config, rest: string): Config
    decreases |rest|
  {
    if rest == "" then c
    else var n := ChunkLen(rest); LoadFrom(LoadLine(c, rest[..n]), rest[n..])
  }

  /** A file that cannot be opened leaves the default configuration. */
  function Loaded(file: Option<string>): Config {
    match file case None => DEFAULT case Some(text) => LoadFrom(DEFAULT, text)
  }

  method LoadConfig(file: Option<string>) returns (config: Config)
    ensures config == Loaded(file)
  {
    match file
    case None => config := DEFAULT;
    case Some(text) => config := LoadText(text);
  }

  method LoadText(file: string) returns (config: Config)
    ensures config == LoadFrom(DEFAULT, file)
  {
    hide LoadLine, LoadFrom, ChunkLen;
    config := DEFAULT;
    assert file[0..] == file;
    var line := new char[MAX_LINE];
    var pos := 0;
    while pos < |file|
      invariant pos <= |file|
      invariant LoadFrom(config, file[pos..]) == LoadFrom(DEFAULT, file)
    {
      var n := Fgets(line, file, pos);
      LoadStep(config, file, pos);
      config := LoadBuffer(config, line, file[pos..pos + n]);
      pos := pos + n;
    }
    assert file[pos..] == "";
    LoadEnds(config);
  }

  lemma LoadEnds(c: Config)
    ensures LoadFrom(c, "") == c
  {
  }

  lemma LoadStep(c: Config, file: string, pos: nat)
    requires pos < |file|
    ensures var n := ChunkLen(file[pos..]);
            LoadFrom(c, file[pos..]) == LoadFrom(LoadLine(c, file[pos..pos + n]), file[pos + n..])
  {
    hide LoadLine, Rewrite, ChunkLen;
    var rest, n := file[pos..], ChunkLen(file[pos..]);
    assert file[pos..pos + n] == rest[..n] && file[pos + n..] == rest[n..];
  }

  /** The body of the loop: one line in the buffer. */
  method LoadBuffer(c: Config, line: array<char>, ghost chunk: string) returns (config: Config)
    requires NUL in line[..] && CStr(line[..]) == CStr(chunk)
    modifies line
    ensures config == LoadLine(c, chunk)
  {
    hide Trim, Prepare, Cut;
    config := c;
    TrimNewline(line);
    CStrFirst(line[..]);
    if line[0] == NUL || line[0] == '#' {
      NothingPrepared(CStr(line[..]));
      return;
    }
    PrepareLine(line);
    var entry := Cut(CStr(line[..]));
    if entry.Some? {
      config := Assign(config, entry.value.0, entry.value.1);
    }
  }

  lemma CStrFirst(s: string)
    requires s != ""
    ensures CStr(s) == "" <==> s[0] == NUL
    ensures CStr(s) != "" ==> CStr(s)[0] == s[0]
  {
  }

  lemma NothingPrepared(s: string)
    requires s == "" || s[0] == '#'
    ensures Cut(Prepare(s)) == None
  {
  }

  // ---------- update_config_file ----------

  /** What the rewriter prints for one line; `fputs` stops at a NUL. */
  function Rewrite(c: Config, line: string): string {
    match Parse(line)
    case None => CStr(line)
    case Some((k, _)) => Rendered(c, k)
  }

  function Update(c: Config, rest: string): string
    decreases |rest|
  {
    if rest == "" then ""
    else var n := ChunkLen(rest); Rewrite(c, rest[..n]) + Update(c, rest[n..])
  }

  method UpdateConfigFile(file: string, config: Config) returns (out: string)
    ensures out == Update(config, file)
  {
    hide Rewrite, Update, ChunkLen;
    out := "";
    UpdateEnds(config);
    assert file[0..] == file;
    var line := new char[MAX_LINE];
    var pos := 0;
    while pos < |file|
      invariant pos <= |file|
      invariant out + Update(config, file[pos..]) == Update(config, file)
    {
      var n := Fgets(line, file, pos);
      UpdateStep(config, file, pos);
      var printed := RewriteBuffer(config, line, file[pos..pos + n]);
      out := out + printed;
      pos := pos + n;
    }
    assert file[pos..] == "";
  }

  lemma UpdateEnds(c: Config)
    ensures Update(c, "") == ""
  {
  }

  lemma UpdateStep(c: Config, file: string, pos: nat)
    requires pos < |file|
    ensures var n := ChunkLen(file[pos..]);
            Update(c, file[pos..]) == Rewrite(c, file[pos..pos + n]) + Update(c, file[pos + n..])
  {
    hide LoadLine, Rewrite, ChunkLen;
    var rest, n := file[pos..], ChunkLen(file[pos..]);
    assert file[pos..pos + n] == rest[..n] && file[pos + n..] == rest[n..];
  }

  /** The body of the loop: the line in the buffer is cut up, its copy is kept. */
  method RewriteBuffer(config: Config, line: array<char>, ghost chunk: string) returns (printed: string)
    requires NUL in line[..] && CStr(line[..]) == CStr(chunk)
    modifies line
    ensures printed == Rewrite(config, chunk)
  {
    hide Trim, Prepare, Cut, Rendered;
    var originalLine := CStr(line[..]);
    TrimNewline(line);
    PrepareLine(line);
    var entry := Cut(CStr(line[..]));
    printed := if entry.None? then originalLine else Rendered(config, entry.value.0);
  }

  function OrEmpty(s: Option<string>): string {
    if s.Some? then s.value else ""
  }
}
