/** What the loader and the rewriter do with the literal text of a configuration file. */
module ConfigTexts {
  import opened CString
  import opened Configs
  import opened ConfigProofs

  /** Text that neither the loader nor `%s` changes: no NUL, no `#`, no white space. */
  ghost predicate Untouched(s: string) {
    forall i :: 0 <= i < |s| ==> s[i] != '\0' && s[i] != '#' && s[i] != ' ' && !(9 <= s[i] as int <= 13)
  }

  /** The rest of a line: no NUL and no line feed. */
  ghost predicate InLine(s: string) {
    '\0' !in s && '\n' !in s
  }

  lemma UntouchedIsPlain(s: string)
    ensures Untouched(s) <==> NulFree(s) && Plain(s)
  {
    if NulFree(s) && Plain(s) {
      forall i | 0 <= i < |s|
        ensures s[i] != '\0' && s[i] != '#' && s[i] != ' ' && !(9 <= s[i] as int <= 13)
      {
        assert !IsSpace(s[i]);
      }
    }
  }

  // ---------- the lines of fgets ----------

  /** A line ends at its line feed, at 511 characters, or with the file. */
  lemma FgetsTakes(rest: string)
    requires rest != ""
    ensures var most := if |rest| < 511 then |rest| else 511;
            && ('\n' !in rest[..most] ==> ChunkLen(rest) == most)
            && (forall i :: 0 <= i < most && rest[i] == '\n' && '\n' !in rest[..i] ==> ChunkLen(rest) == i + 1)
  {
    var most := if |rest| < 511 then |rest| else 511;
    var n := ChunkLen(rest);
    forall i | 0 <= i < most && rest[i] == '\n' && '\n' !in rest[..i]
      ensures n == i + 1
    {
      assert rest[..most][i] == '\n';
      assert forall j :: 0 <= j < i ==> rest[..i][j] == rest[j];
      assert forall j :: 0 <= j < n - 1 ==> rest[..n - 1][j] == rest[j];
    }
  }

  // ---------- the loader ----------

  lemma LineLoaded(d: Config, k: Key, v: string, rest: string)
    requires Untouched(v)
    ensures |Name(k)| + 1 + |v| < MAX_LINE ==>
              LoadFrom(d, Name(k) + "=" + v + "\n" + rest) == LoadFrom(Assign(d, k, v), rest)
  {
    hide Parse, Name, Plain, NulFree, LoadFrom, Assign, Prepare, Trim, Untouched;
    UntouchedIsPlain(v);
    PlainValue(v);
    HeadHasNoNewline(k, v);
    ParseKeyLine(k, v);
    ParseKeyLine(k, v + "\n");
    var head := Name(k) + "=" + v;
    assert head + "\n" == Name(k) + "=" + (v + "\n");
    if |head| < MAX_LINE {
      LoadOneLine(d, head, rest, k, v);
    }
  }

  lemma NumberIsUntouched(n: CInt)
    ensures Untouched(Decimal(n)) && |Decimal(n)| <= 11
  {
    DecimalPlain(n);
    forall i | 0 <= i < |Decimal(n)|
      ensures Decimal(n)[i] == '-' || IsDigit(Decimal(n)[i])
    {
      assert Decimal(n)[i] in Decimal(n);
    }
  }

  /** The two numbers. */
  lemma PortsAreLoaded(d: Config, n: CInt, rest: string)
    ensures LoadFrom(d, "PORT=" + Decimal(n) + "\n" + rest) == LoadFrom(d.(port := n), rest)
    ensures LoadFrom(d, "DB_PORT=" + Decimal(n) + "\n" + rest) == LoadFrom(d.(dbPort := n), rest)
  {
    hide LoadFrom, Atoi, Decimal, Untouched;
    NumberIsUntouched(n);
    AtoiDecimal(n);
    LineLoaded(d, Port, Decimal(n), rest);
    LineLoaded(d, DbPort, Decimal(n), rest);
    assert "PORT" + "=" == "PORT=" && "DB_PORT" + "=" == "DB_PORT=";
  }

  /** The four strings. */
  lemma StringsAreLoaded(d: Config, v: string, rest: string)
    requires Untouched(v)
    ensures |"DB_HOST=" + v| < 512 ==>
              LoadFrom(d, "DB_HOST=" + v + "\n" + rest) == LoadFrom(d.(dbHost := Some(v)), rest)
    ensures |"DB_DATABASE=" + v| < 512 ==>
              LoadFrom(d, "DB_DATABASE=" + v + "\n" + rest) == LoadFrom(d.(dbDatabase := Some(v)), rest)
    ensures |"DB_USER=" + v| < 512 ==>
              LoadFrom(d, "DB_USER=" + v + "\n" + rest) == LoadFrom(d.(dbUser := Some(v)), rest)
    ensures |"DB_PASS=" + v| < 512 ==>
              LoadFrom(d, "DB_PASS=" + v + "\n" + rest) == LoadFrom(d.(dbPass := Some(v)), rest)
  {
    hide LoadFrom, Atoi, Untouched;
    LineLoaded(d, DbHost, v, rest);
    LineLoaded(d, DbDatabase, v, rest);
    LineLoaded(d, DbUser, v, rest);
    LineLoaded(d, DbPass, v, rest);
    assert "DB_HOST" + "=" == "DB_HOST=" && "DB_DATABASE" + "=" == "DB_DATABASE=";
    assert "DB_USER" + "=" == "DB_USER=" && "DB_PASS" + "=" == "DB_PASS=";
  }

  /** A missing or empty file gives no setting at all. */
  lemma NothingIsLoaded()
    ensures Loaded(None) == Loaded(Some("")) == Config(0, 0, None, None, None, None)
  {
  }

  // ---------- the rewriter ----------

  lemma LineRewritten(c: Config, k: Key, w: string, rest: string)
    requires InLine(w)
    ensures |Name(k)| + 1 + |w| + 1 < MAX_LINE ==>
              Update(c, Name(k) + "=" + w + "\n" + rest) == Rendered(c, k) + Update(c, rest)
  {
    hide Update, Rendered, Rewrite, Name;
    NamePlain(k);
    NameHasNoNewline(k);
    RewriteKeyLine(c, k, w + "\n");
    var line := Name(k) + "=" + w + "\n";
    assert line == Name(k) + "=" + (w + "\n") && line[..|line| - 1] == Name(k) + "=" + w;
    if |line| < MAX_LINE {
      UpdateFirst(c, line, rest);
    }
  }

  lemma NameHasNoNewline(k: Key)
    ensures '\n' !in Name(k)
  {
  }

  lemma PortsAreRewritten(c: Config, w: string, rest: string)
    requires InLine(w)
    ensures |"PORT=" + w + "\n"| < 512 ==>
              Update(c, "PORT=" + w + "\n" + rest) == "PORT=" + Decimal(c.port) + "\n" + Update(c, rest)
    ensures |"DB_PORT=" + w + "\n"| < 512 ==>
              Update(c, "DB_PORT=" + w + "\n" + rest) == "DB_PORT=" + Decimal(c.dbPort) + "\n" + Update(c, rest)
  {
    hide Update, Decimal, InLine;
    LineRewritten(c, Port, w, rest);
    LineRewritten(c, DbPort, w, rest);
    assert "PORT" + "=" == "PORT=" && "DB_PORT" + "=" == "DB_PORT=";
  }

  function OrEmpty(text: Option<string>): string {
    if text.None? then "" else text.value
  }

  lemma StringsAreRewritten(c: Config, w: string, rest: string)
    requires InLine(w)
    ensures |"DB_HOST=" + w + "\n"| < 512 ==>
              Update(c, "DB_HOST=" + w + "\n" + rest) == "DB_HOST=" + OrEmpty(c.dbHost) + "\n" + Update(c, rest)
    ensures |"DB_DATABASE=" + w + "\n"| < 512 ==>
              Update(c, "DB_DATABASE=" + w + "\n" + rest) == "DB_DATABASE=" + OrEmpty(c.dbDatabase) + "\n" + Update(c, rest)
    ensures |"DB_USER=" + w + "\n"| < 512 ==>
              Update(c, "DB_USER=" + w + "\n" + rest) == "DB_USER=" + OrEmpty(c.dbUser) + "\n" + Update(c, rest)
    ensures |"DB_PASS=" + w + "\n"| < 512 ==>
              Update(c, "DB_PASS=" + w + "\n" + rest) == "DB_PASS=" + OrEmpty(c.dbPass) + "\n" + Update(c, rest)
  {
    hide Update, InLine;
    LineRewritten(c, DbHost, w, rest);
    LineRewritten(c, DbDatabase, w, rest);
    LineRewritten(c, DbUser, w, rest);
    LineRewritten(c, DbPass, w, rest);
    assert "DB_HOST" + "=" == "DB_HOST=" && "DB_DATABASE" + "=" == "DB_DATABASE=";
    assert "DB_USER" + "=" == "DB_USER=" && "DB_PASS" + "=" == "DB_PASS=";
  }

  // ---------- other lines ----------

  /** A line that is no setting: a comment, one without `=`, or one with another key. */
  ghost predicate NoSetting(line: string) {
    || (line != "" && line[0] == '#')
    || '=' !in line
    || exists key, w :: line == key + "=" + w && Untouched(key) && '=' !in key
         && key !in {"PORT", "DB_PORT", "DB_HOST", "DB_DATABASE", "DB_USER", "DB_PASS"}
  }

  /** It is passed over by the loader, and copied by the rewriter. */
  lemma OtherLinesStay(c: Config, line: string, rest: string)
    requires InLine(line) && |line| + 1 < 512 && NoSetting(line)
    ensures LoadFrom(c, line + "\n" + rest) == LoadFrom(c, rest)
    ensures Update(c, line + "\n" + rest) == line + "\n" + Update(c, rest)
  {
    hide LoadFrom, Update, Parse, NoSetting;
    var whole := line + "\n";
    assert whole[..|whole| - 1] == line;
    NoSettingParsed(line);
    RewriteKept(c, whole);
    LoadFirst(c, whole, rest);
    UpdateFirst(c, whole, rest);
  }

  lemma NoSettingParsed(line: string)
    requires InLine(line) && NoSetting(line)
    ensures NulFree(line + "\n") && Parse(line + "\n").None?
  {
    assert NulFree(line + "\n");
    assert CStr(line + "\n") == line + "\n";
    assert (line + "\n")[..|line|] == line;
    assert Trim(line + "\n") == Trim(line);
    if line != "" && line[0] == '#' {
      CommentPrepared(Trim(line));
    } else if '=' !in line {
      forall i | 0 <= i < |Prepare(Trim(line))|
        ensures Prepare(Trim(line))[i] != '='
      {
        assert Prepare(Trim(line))[i] in Trim(line);
      }
    } else {
      var key, w :| line == key + "=" + w && Untouched(key) && '=' !in key
                    && key !in {"PORT", "DB_PORT", "DB_HOST", "DB_DATABASE", "DB_USER", "DB_PASS"};
      hide Cut, KeyOf, NoSetting, InLine, Trim, Prepare;
      OtherKeyPrepared(key, w);
      UnknownCut(key, Prepare(Trim(w)));
    }
  }

  lemma CommentPrepared(s: string)
    ensures s == "" || s[0] == '#' ==> Cut(Prepare(s)).None?
  {
  }

  lemma OtherKeyPrepared(key: string, w: string)
    requires Untouched(key)
    ensures Prepare(Trim(key + "=" + w)) == key + "=" + Prepare(Trim(w))
  {
    hide Prepare, Trim, Untouched, Plain;
    UntouchedIsPlain(key);
    assert Untouched(key + "=") by { EqualsIsUntouched(key); }
    UntouchedIsPlain(key + "=");
    NoHash(key + "=");
    TrimAppend(key + "=", w);
    PrepareAppend(key + "=", Trim(w));
    PreparePlain(key + "=");
  }

  lemma EqualsIsUntouched(key: string)
    ensures Untouched(key) ==> Untouched(key + "=")
  {
  }

  lemma NoHash(s: string)
    ensures Untouched(s) ==> '#' !in s
  {
  }

  lemma UnknownCut(key: string, v: string)
    requires '=' !in key && key !in {"PORT", "DB_PORT", "DB_HOST", "DB_DATABASE", "DB_USER", "DB_PASS"}
    ensures Cut(key + "=" + v).None?
  {
    StrChrAt(key, '=', v);
    assert (key + "=" + v)[..|key|] == key;
  }

  // ---------- white space and comments within a line ----------

  lemma SpacePrepared(c: char, b: string)
    ensures c == ' ' || 9 <= c as int <= 13 ==> Prepare([c] + b) == Prepare(b)
    ensures Prepare("#" + b) == ""
  {
    assert ([c] + b)[1..] == b;
  }

  /** White space anywhere before a comment is dropped; a comment is dropped with its `#`; other
      text stays. Together these say what `prepare_line` makes of any line. */
  lemma PreparedText(a: string, c: char, b: string)
    requires '#' !in a
    ensures c == ' ' || 9 <= c as int <= 13 ==> Prepare(a + [c] + b) == Prepare(a + b)
    ensures Prepare(a + "#" + b) == Prepare(a)
    ensures Untouched(a) ==> Prepare(a) == a
  {
    hide Prepare, Untouched;
    PrepareAppend(a, [c] + b);
    PrepareAppend(a, b);
    PrepareAppend(a, "#" + b);
    assert a + [c] + b == a + ([c] + b) && a + "#" + b == a + ("#" + b);
    SpacePrepared(c, b);
    if Untouched(a) {
      UntouchedIsPlain(a);
      PreparePlain(a);
    }
  }

  /** Line feeds and carriage returns at the end are dropped, and nothing else. */
  lemma TrimmedText(s: string)
    ensures Trim(s + "\n") == Trim(s + "\r") == Trim(s)
    ensures s != "" && s[|s| - 1] != '\n' && s[|s| - 1] != '\r' ==> Trim(s) == s
  {
    assert (s + "\n")[..|s|] == s == (s + "\r")[..|s|];
  }
}
