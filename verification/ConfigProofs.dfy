/** The rewriter of the configuration file agrees with its loader. */
module ConfigProofs {
  import opened CString
  import opened Configs

  // ---------- lines that are taken whole ----------

  /** `line` is what `fgets` takes first from a file that continues with `rest`. */
  ghost predicate WholeLine(line: string, rest: string) {
    && 0 < |line| < MAX_LINE && '\n' !in line[..|line| - 1]
    && (rest == "" || |line| == MAX_LINE - 1 || line[|line| - 1] == '\n')
  }

  lemma TakenWhole(line: string, rest: string)
    requires WholeLine(line, rest)
    ensures ChunkLen(line + rest) == |line|
  {
    var text, last := line + rest, |line| - 1;
    var most := if |text| < MAX_LINE - 1 then |text| else MAX_LINE - 1;
    if line[last] == '\n' {
      assert text[..most] == line[..last] + ['\n'] + text[|line|..most];
      StrChrAt(line[..last], '\n', text[|line|..most]);
    } else {
      assert text[..most] == line == line[..last] + [line[last]];
    }
  }

  lemma FirstLine(rest: string)
    requires rest != ""
    ensures var n := ChunkLen(rest); WholeLine(rest[..n], rest[n..])
  {
    var n := ChunkLen(rest);
    assert rest[..n][..n - 1] == rest[..n - 1];
  }

  // ---------- lines with a key ----------

  lemma {:induction false} PrepareAppend(s: string, t: string)
    requires '#' !in s
    ensures Prepare(s + t) == Prepare(s) + Prepare(t)
  {
    if s == "" {
      assert s + t == t;
    } else {
      assert (s + t)[1..] == s[1..] + t;
      PrepareAppend(s[1..], t);
    }
  }

  ghost predicate Plain(s: string) {
    forall i :: 0 <= i < |s| ==> !IsSpace(s[i]) && s[i] != '#'
  }

  lemma {:induction false} PreparePlain(s: string)
    requires Plain(s)
    ensures Prepare(s) == s
  {
    if s != "" {
      PreparePlain(s[1..]);
    }
  }

  lemma {:induction false} TrimAppend(s: string, t: string)
    requires s != "" && !IsSpace(s[|s| - 1])
    ensures Trim(s + t) == s + Trim(t)
  {
    if t == "" {
      assert s + t == s;
    } else {
      assert (s + t)[..|s + t| - 1] == s + t[..|t| - 1];
      TrimAppend(s, t[..|t| - 1]);
    }
  }

  lemma NamePlain(k: Key)
    ensures Name(k) != "" && NulFree(Name(k)) && Plain(Name(k)) && '=' !in Name(k) && '#' !in Name(k) && |Name(k)| <= 11
  {
  }

  /** Whatever follows `KEY=` on a line, the line is one for that key. */
  lemma ParseKeyLine(k: Key, w: string)
    requires NulFree(w)
    ensures Parse(Name(k) + "=" + w) == Some((k, Prepare(Trim(w))))
  {
    HeadPlain(k);
    hide Name, Cut, Prepare, Trim, Plain, NulFree;
    var head, t := Name(k) + "=", Trim(w);
    NulFreeAppend(head, w);
    TrimAppend(head, w);
    PrepareAppend(head, t);
    PreparePlain(head);
    CutKeyLine(k, Prepare(t));
  }

  lemma HeadPlain(k: Key)
    ensures var head := Name(k) + "="; NulFree(head) && Plain(head) && '#' !in head
  {
    NamePlain(k);
  }

  lemma NulFreeAppend(s: string, t: string)
    requires NulFree(s) && NulFree(t)
    ensures NulFree(s + t)
  {
  }

  lemma CutKeyLine(k: Key, v: string)
    ensures Cut(Name(k) + "=" + v) == Some((k, v))
  {
    NamePlain(k);
    KeyOfName(k);
    hide Name, KeyOf;
    var text := Name(k) + "=" + v;
    StrChrAt(Name(k), '=', v);
    assert text[..|Name(k)|] == Name(k) && text[|Name(k)| + 1..] == v;
  }

  lemma PlainValue(v: string)
    requires Plain(v) && NulFree(v)
    ensures Prepare(Trim(v)) == v && Prepare(Trim(v + "\n")) == v && NulFree(v + "\n")
  {
    PreparePlain(v);
    assert (v + "\n")[..|v|] == v;
    assert Trim(v) == v;
  }

  // ---------- update, then load ----------

  /** The file has a line from which the loader reads key `k`. */
  ghost predicate Mentions(rest: string, k: Key)
    decreases |rest|
  {
    rest != "" &&
    var n := ChunkLen(rest);
    (Parse(rest[..n]).Some? && Parse(rest[..n]).value.0 == k) || Mentions(rest[n..], k)
  }

  /** What a setting is after a trip through the file: a missing string comes back empty. */
  ghost function Stored(c: Config, k: Key): Setting {
    match Field(c, k)
    case Number(n) => Number(n)
    case Text(s) => Text(Some(OrEmpty(s)))
  }

  /** A setting that fits on one line of the loader and has no character that it strips. */
  ghost predicate Clean(k: Key, v: Setting) {
    v.Text? && v.s.Some? ==> NulFree(v.s.value) && Plain(v.s.value) && |Name(k)| + 1 + |v.s.value| < MAX_LINE
  }

  ghost predicate AllClean(c: Config) {
    forall k :: Clean(k, Field(c, k))
  }

  /** The settings that the file asks for are clean. */
  ghost predicate CleanIn(c: Config, file: string) {
    forall k :: Mentions(file, k) ==> Clean(k, Field(c, k))
  }

  lemma ShownClean(c: Config, k: Key)
    requires Clean(k, Field(c, k))
    ensures NulFree(Shown(c, k)) && Plain(Shown(c, k)) && |Name(k)| + 1 + |Shown(c, k)| < MAX_LINE
    ensures forall d :: Field(Assign(d, k, Shown(c, k)), k) == Stored(c, k)
  {
    NamePlain(k);
    if Field(c, k).Number? {
      DecimalPlain(Field(c, k).n);
      AtoiDecimal(Field(c, k).n);
      forall i | 0 <= i < |Shown(c, k)|
        ensures Shown(c, k)[i] == '-' || IsDigit(Shown(c, k)[i])
      {
        assert Shown(c, k)[i] in Shown(c, k);
      }
    }
  }

  /** The loader takes a first line and goes on with the rest. */
  lemma LoadFirst(d: Config, line: string, rest: string)
    requires WholeLine(line, rest)
    ensures LoadFrom(d, line + rest) == LoadFrom(LoadLine(d, line), rest)
  {
    hide ChunkLen, LoadLine;
    TakenWhole(line, rest);
    assert (line + rest)[..|line|] == line && (line + rest)[|line|..] == rest;
  }

  lemma HeadHasNoNewline(k: Key, v: string)
    requires Plain(v)
    ensures '\n' !in Name(k) + "=" + v
  {
    NamePlain(k);
  }

  /** A line that parses the same with and without its line feed is read, even when
      `fgets` splits the two. */
  lemma LoadOneLine(d: Config, head: string, rest: string, k: Key, v: string)
    requires head != "" && |head| < MAX_LINE && '\n' !in head
    requires Parse(head) == Parse(head + "\n") == Some((k, v))
    ensures LoadFrom(d, head + "\n" + rest) == LoadFrom(Assign(d, k, v), rest)
  {
    EmptyLine();
    hide Parse, LoadFrom, Assign;
    if |head| < MAX_LINE - 1 {
      assert (head + "\n")[..|head|] == head;
      LoadFirst(d, head + "\n", rest);
    } else {
      assert head + "\n" + rest == head + ("\n" + rest);
      LoadFirst(d, head, "\n" + rest);
      LoadFirst(LoadLine(d, head), "\n", rest);
    }
  }

  lemma LoadRendered(c: Config, k: Key, d: Config, rest: string)
    requires Clean(k, Field(c, k))
    ensures LoadFrom(d, Rendered(c, k) + rest) == LoadFrom(Assign(d, k, Shown(c, k)), rest)
  {
    hide Parse, Shown, Name, Plain, NulFree, LoadFrom, Assign, Prepare, Trim, Clean, Stored;
    var v := Shown(c, k);
    ShownClean(c, k);
    PlainValue(v);
    HeadHasNoNewline(k, v);
    ParseKeyLine(k, v);
    ParseKeyLine(k, v + "\n");
    var head := Name(k) + "=" + v;
    assert head + "\n" == Name(k) + "=" + (v + "\n");
    LoadOneLine(d, head, rest, k, v);
  }

  lemma EmptyLine()
    ensures Parse("\n") == None
  {
    assert Trim("\n") == Trim("") == "";
  }

  lemma WholeBeforeUpdate(c: Config, line: string, rest: string)
    requires WholeLine(line, rest)
    ensures WholeLine(line, Update(c, rest))
  {
  }

  lemma RewriteKept(c: Config, line: string)
    requires NulFree(line) && Parse(line).None?
    ensures Rewrite(c, line) == line
    ensures forall d :: LoadLine(d, line) == d
  {
  }

  lemma LineKept(c: Config, d: Config, file: string, k: Key)
    requires NulFree(file) && file != "" && Parse(file[..ChunkLen(file)]).None?
    ensures var rest := file[ChunkLen(file)..];
            && LoadFrom(d, Update(c, file)) == LoadFrom(d, Update(c, rest))
            && (Mentions(file, k) <==> Mentions(rest, k))
  {
    hide Parse, ChunkLen, LoadFrom, LoadLine, WholeLine, Rewrite;
    FirstLine(file);
    var n := ChunkLen(file);
    RewriteKept(c, file[..n]);
    WholeBeforeUpdate(c, file[..n], file[n..]);
    LoadFirst(d, file[..n], Update(c, file[n..]));
  }

  lemma LineWritten(c: Config, d: Config, file: string, k: Key)
    requires file != "" && Parse(file[..ChunkLen(file)]).Some?
    requires var k0 := Parse(file[..ChunkLen(file)]).value.0; Clean(k0, Field(c, k0))
    ensures var rest, k0 := file[ChunkLen(file)..], Parse(file[..ChunkLen(file)]).value.0;
            && LoadFrom(d, Update(c, file)) == LoadFrom(Assign(d, k0, Shown(c, k0)), Update(c, rest))
            && (Mentions(file, k) <==> k == k0 || Mentions(rest, k))
  {
    hide Parse, ChunkLen, LoadFrom, Rendered, Clean;
    var n := ChunkLen(file);
    var k0 := Parse(file[..n]).value.0;
    LoadRendered(c, k0, d, Update(c, file[n..]));
  }

  lemma CleanInRest(c: Config, file: string)
    requires file != "" && CleanIn(c, file)
    ensures CleanIn(c, file[ChunkLen(file)..])
    ensures Parse(file[..ChunkLen(file)]).Some? ==>
              var k0 := Parse(file[..ChunkLen(file)]).value.0; Clean(k0, Field(c, k0))
  {
    hide Parse, ChunkLen, Clean;
    forall k | Mentions(file[ChunkLen(file)..], k)
      ensures Mentions(file, k)
    {
    }
    if Parse(file[..ChunkLen(file)]).Some? {
      assert Mentions(file, Parse(file[..ChunkLen(file)]).value.0);
    }
  }

  /** Loading a rewritten file: new values for the keys of the old file, and nothing else. */
  lemma {:induction false} LoadUpdated(c: Config, d: Config, file: string, k: Key)
    requires NulFree(file) && CleanIn(c, file)
    ensures Field(LoadFrom(d, Update(c, file)), k) == if Mentions(file, k) then Stored(c, k) else Field(d, k)
    decreases |file|
  {
    if file != "" {
      var n := ChunkLen(file);
      CleanInRest(c, file);
      if Parse(file[..n]).None? {
        LineKept(c, d, file, k);
        LoadUpdated(c, d, file[n..], k);
      } else {
        var k0 := Parse(file[..n]).value.0;
        LineWritten(c, d, file, k);
        ShownClean(c, k0);
        LoadUpdated(c, Assign(d, k0, Shown(c, k0)), file[n..], k);
        hide Parse, ChunkLen, LoadFrom, Update, Mentions, Stored, Shown, Field;
      }
    }
  }

  lemma {:induction false} LoadedIsClean(d: Config, rest: string)
    requires AllClean(d)
    ensures AllClean(LoadFrom(d, rest))
    decreases |rest|
  {
    if rest != "" {
      var n := ChunkLen(rest);
      ParsedIsClean(rest[..n]);
      LoadedIsClean(LoadLine(d, rest[..n]), rest[n..]);
    }
  }

  lemma ParsedIsClean(line: string)
    requires |line| < MAX_LINE
    ensures Parse(line).Some? ==> Clean(Parse(line).value.0, Text(Some(Parse(line).value.1)))
  {
    var t := Trim(CStr(line));
    PreparedIsNulFree(t);
  }

  /** Everything the rewriter wrote is read back, and everything it did not write is left at its default. */
  ghost predicate ReadsBack(c: Config, file: string) {
    forall k :: Field(Loaded(Some(Update(c, file))), k) == if Mentions(file, k) then Stored(c, k) else Field(DEFAULT, k)
  }

  /** Any one file is read back exactly when the settings that it asks for are clean. */
  lemma ReadsBackWhenClean(c: Config, file: string)
    requires NulFree(file)
    ensures ReadsBack(c, file) <==> CleanIn(c, file)
  {
    hide LoadFrom, Update, Mentions, Clean, Field, Stored;
    if CleanIn(c, file) {
      forall k {
        LoadUpdated(c, DEFAULT, file, k);
      }
    } else {
      var k :| Mentions(file, k) && !Clean(k, Field(c, k));
      DefaultIsClean();
      LoadedIsClean(DEFAULT, Update(c, file));
      DirtyStored(c, k);
    }
  }

  /** A configuration survives the trip through every file exactly when it is clean. */
  lemma UpdateThenLoad(c: Config)
    ensures AllClean(c) <==> forall file :: NulFree(file) ==> ReadsBack(c, file)
  {
    if AllClean(c) {
      forall file | NulFree(file)
        ensures ReadsBack(c, file)
      {
        ReadsBackWhenClean(c, file);
      }
    } else {
      var k :| !Clean(k, Field(c, k));
      DirtyIsLost(c, k);
    }
  }

  lemma DefaultIsClean()
    ensures AllClean(DEFAULT)
  {
  }

  lemma DirtyStored(c: Config, k: Key)
    requires !Clean(k, Field(c, k))
    ensures !Clean(k, Stored(c, k))
  {
  }

  lemma OnlyKeyMentioned(k: Key)
    ensures NulFree(Name(k) + "=") && Mentions(Name(k) + "=", k)
  {
    hide Parse, ChunkLen, Name;
    var file := Name(k) + "=";
    NamePlain(k);
    ParseKeyLine(k, "");
    HeadHasNoNewline(k, "");
    assert file + "" == file && file[..|file|] == file;
    TakenWhole(file, "");
  }

  lemma DirtyIsLost(c: Config, k: Key)
    requires !Clean(k, Field(c, k))
    ensures NulFree(Name(k) + "=") && !ReadsBack(c, Name(k) + "=")
  {
    hide Name, Mentions, Clean, Field, NulFree, ReadsBack;
    OnlyKeyMentioned(k);
    ReadsBackWhenClean(c, Name(k) + "=");
  }

  // ---------- line by line, and updating twice ----------

  function Lines(rest: string): seq<string>
    decreases |rest|
  {
    if rest == "" then [] else var n := ChunkLen(rest); [rest[..n]] + Lines(rest[n..])
  }

  function RewriteAll(c: Config, lines: seq<string>): seq<string> {
    if lines == [] then [] else [Rewrite(c, lines[0])] + RewriteAll(c, lines[1..])
  }

  /** The strings of a configuration are C strings. */
  ghost predicate Strings(c: Config) {
    forall k :: NulFree(Shown(c, k))
  }

  /** What the rewriter prints for the key is one line, taken whole by `fgets`. */
  ghost predicate OneLine(c: Config, k: Key) {
    '\n' !in Shown(c, k) && |Rendered(c, k)| < MAX_LINE
  }

  lemma LinesFirst(line: string, rest: string)
    requires WholeLine(line, rest)
    ensures Lines(line + rest) == [line] + Lines(rest)
  {
    hide ChunkLen;
    TakenWhole(line, rest);
    assert (line + rest)[..|line|] == line && (line + rest)[|line|..] == rest;
  }

  lemma RenderedWhole(c: Config, k: Key, rest: string)
    requires OneLine(c, k)
    ensures WholeLine(Rendered(c, k), rest)
  {
    NamePlain(k);
    var line := Rendered(c, k);
    assert line[..|line| - 1] == Name(k) + "=" + Shown(c, k);
  }

  /** Splitting the rewritten file gives exactly the rewritten lines, in order. */
  lemma {:induction false} UpdateByLines(c: Config, file: string)
    requires NulFree(file) && forall k :: OneLine(c, k)
    ensures Lines(Update(c, file)) == RewriteAll(c, Lines(file))
    ensures forall i :: 0 <= i < |Lines(file)| && Parse(Lines(file)[i]).None? ==>
              i < |RewriteAll(c, Lines(file))| && RewriteAll(c, Lines(file))[i] == Lines(file)[i]
    decreases |file|
  {
    hide Parse, ChunkLen, Rewrite, WholeLine, OneLine;
    if file != "" {
      var n := ChunkLen(file);
      var line, rest := file[..n], file[n..];
      FirstLine(file);
      UpdateByLines(c, rest);
      FirstRewritten(c, line, rest);
      LinesFirst(Rewrite(c, line), Update(c, rest));
      assert Lines(file) == [line] + Lines(rest);
      forall i | 0 <= i < |Lines(file)| && Parse(Lines(file)[i]).None?
        ensures i < |RewriteAll(c, Lines(file))| && RewriteAll(c, Lines(file))[i] == Lines(file)[i]
      {
        if i == 0 {
          RewriteKept(c, line);
        } else {
          assert Lines(file)[i] == Lines(rest)[i - 1];
        }
      }
    }
  }

  lemma FirstRewritten(c: Config, line: string, rest: string)
    requires WholeLine(line, rest) && NulFree(line) && forall k :: OneLine(c, k)
    ensures WholeLine(Rewrite(c, line), Update(c, rest))
  {
    if Parse(line).None? {
      RewriteKept(c, line);
      WholeBeforeUpdate(c, line, rest);
    } else {
      RenderedWhole(c, Parse(line).value.0, Update(c, rest));
    }
  }

  lemma UpdateFirst(c: Config, line: string, rest: string)
    requires WholeLine(line, rest)
    ensures Update(c, line + rest) == Rewrite(c, line) + Update(c, rest)
  {
    hide ChunkLen, Rewrite;
    TakenWhole(line, rest);
    assert (line + rest)[..|line|] == line && (line + rest)[|line|..] == rest;
  }

  /** A line that begins with `KEY=` is replaced by the rendered one. */
  lemma RewriteKeyLine(c: Config, k: Key, w: string)
    requires NulFree(w)
    ensures Rewrite(c, Name(k) + "=" + w) == Rendered(c, k)
  {
    ParseKeyLine(k, w);
  }

  lemma RewriteTwice(c: Config, line: string)
    requires NulFree(line) && Strings(c)
    ensures Rewrite(c, Rewrite(c, line)) == Rewrite(c, line)
  {
    if Parse(line).None? {
      RewriteKept(c, line);
    } else {
      var k := Parse(line).value.0;
      assert Rendered(c, k) == Name(k) + "=" + (Shown(c, k) + "\n");
      RewriteKeyLine(c, k, Shown(c, k) + "\n");
    }
  }

  lemma {:induction false} UpdateTwice(c: Config, file: string)
    requires NulFree(file) && Strings(c) && forall k :: OneLine(c, k)
    ensures Update(c, Update(c, file)) == Update(c, file)
    decreases |file|
  {
    if file != "" {
      var n := ChunkLen(file);
      var line, rest := file[..n], file[n..];
      FirstLine(file);
      UpdateTwice(c, rest);
      FirstRewritten(c, line, rest);
      RewriteTwice(c, line);
      UpdateFirst(c, Rewrite(c, line), Update(c, rest));
    }
  }

  /** Updating twice equals updating once, for every file, exactly when each setting is
      printed as one line that the loader's buffer can hold. */
  lemma UpdateIsIdempotent(c: Config)
    requires Strings(c)
    ensures (forall k :: OneLine(c, k)) <==>
            (forall file :: NulFree(file) ==> Update(c, Update(c, file)) == Update(c, file))
  {
    if k :| !OneLine(c, k) {
      SplitLineGrows(c, k);
    } else {
      forall file | NulFree(file)
        ensures Update(c, Update(c, file)) == Update(c, file)
      {
        UpdateTwice(c, file);
      }
    }
  }

  lemma SplitLineGrows(c: Config, k: Key)
    requires Strings(c) && !OneLine(c, k)
    ensures var file := Name(k) + "="; NulFree(file) && |Update(c, Update(c, file))| > |Update(c, file)|
  {
    hide Name, Plain, Update, Rewrite, ChunkLen, WholeLine, Shown;
    var file, line := Name(k) + "=", Rendered(c, k);
    HeadPlain(k);
    UpdateKeyAlone(c, k);
    FirstLine(line);
    RenderedIsSplit(c, k);
    var n := ChunkLen(line);
    SplitKeyLine(c, k, n);
    assert line[..n] + line[n..] == line;
    UpdateFirst(c, line[..n], line[n..]);
    UpdateKeepsSomething(c, line[n..]);
  }

  lemma UpdateKeyAlone(c: Config, k: Key)
    ensures Update(c, Name(k) + "=") == Rendered(c, k)
  {
    hide Name, Rewrite, WholeLine;
    RewriteKeyLine(c, k, "");
    KeyAloneIsALine(k);
    var file := Name(k) + "=";
    assert file + "" == file;
    UpdateFirst(c, file, "");
  }

  lemma SplitKeyLine(c: Config, k: Key, n: nat)
    requires NulFree(Rendered(c, k)) && |Name(k)| < n <= |Rendered(c, k)|
    ensures Rewrite(c, Rendered(c, k)[..n]) == Rendered(c, k)
  {
    var line := Rendered(c, k);
    var w := line[|Name(k)| + 1..n];
    assert line[..n] == Name(k) + "=" + w;
    RewriteKeyLine(c, k, w);
  }

  lemma KeyAloneIsALine(k: Key)
    ensures WholeLine(Name(k) + "=", "")
  {
    NamePlain(k);
    assert (Name(k) + "=")[..|Name(k)|] == Name(k);
  }

  lemma RenderedIsSplit(c: Config, k: Key)
    requires Strings(c) && !OneLine(c, k)
    ensures NulFree(Rendered(c, k)) && |Name(k)| < ChunkLen(Rendered(c, k)) < |Rendered(c, k)|
  {
    hide Name, Plain;
    NamePlain(k);
    HeadPlain(k);
    HeadHasNoNewline(k, "");
    var head, v, line := Name(k) + "=", Shown(c, k), Rendered(c, k);
    assert head + "" == head;
    var n := ChunkLen(line);
    assert line == head + v + "\n" && |line| == |head| + |v| + 1;
    assert forall j :: 0 <= j < n - 1 ==> line[j] == line[..n - 1][j] != '\n';
    assert forall j :: 0 <= j < |head| ==> line[j] == head[j] != '\n';
    if '\n' in v {
      var i :| 0 <= i < |v| && v[i] == '\n';
      assert line[|head| + i] == '\n';
    }
  }

  lemma UpdateKeepsSomething(c: Config, rest: string)
    requires NulFree(rest) && rest != ""
    ensures Update(c, rest) != ""
  {
  }
}
