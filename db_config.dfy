/** The connection settings of config/database.js: the `.env` loader of the
    packaged executable, `parseServerString`, which splits a
    `SERVER[\INSTANCE][,PORT]` string, and the port/instance selection. */
module DbConfig {
  import opened Wrappers
  import opened JsText

  // ---------------------------------------------------------------- .env loader

  /** One line of the `.env` file: the key is the text before the first `=`, the
      value everything after it, trimmed. A line without `=` or with an empty key
      is skipped, and a key that already holds a non-empty value keeps it (an
      empty value counts as unset and is replaced). */
  function EnvLine(env: map<string, string>, line: string): (r: map<string, string>)
    ensures '=' !in line ==> r == env
    ensures FirstField(line, '=') == "" ==> r == env
    ensures var key := FirstField(line, '=');
      key in env && env[key] != "" ==> r == env
    ensures var key := FirstField(line, '=');
      '=' in line && key != "" && (key !in env || env[key] == "") ==>
      r == env[key := Trim(line[IndexOf(line, '=') + 1..])]
  {
    var parts := Split(line, '=');
    SplitFields(line, '=');
    var key := parts[0];
    if key != "" && |parts| > 1 then
      JoinTailFields(line, '=');
      var value := Trim(Join(parts[1..], '='));
      if key !in env || env[key] == "" then env[key := value] else env
    else
      env
  }

  /** The environment after the lines, applied first to last. */
  function ApplyEnvLines(env: map<string, string>, lines: seq<string>): map<string, string> {
    if |lines| == 0 then env else EnvLine(ApplyEnvLines(env, lines[..|lines| - 1]), lines[|lines| - 1])
  }

  /** The loader's loop over `content.split('\n')`, writing into the environment. */
  method LoadEnvFile(env: map<string, string>, content: string) returns (result: map<string, string>)
    ensures result == ApplyEnvLines(env, Split(content, '\n'))
  {
    var lines := Split(content, '\n');
    result := env;
    var i := 0;
    while i < |lines|
      invariant 0 <= i <= |lines|
      invariant result == ApplyEnvLines(env, lines[..i])
    {
      assert lines[..i + 1][..i] == lines[..i];
      result := EnvLine(result, lines[i]);
      i := i + 1;
    }
    assert lines[..|lines|] == lines;
  }

  /** Loading never removes a key, and never overwrites a key that already held a
      non-empty value. */
  lemma {:induction false} LoadKeepsSetKeys(env: map<string, string>, lines: seq<string>)
    ensures env.Keys <= ApplyEnvLines(env, lines).Keys
    ensures forall k | k in env && env[k] != "" ::
      k in ApplyEnvLines(env, lines) && ApplyEnvLines(env, lines)[k] == env[k]
  {
    if |lines| > 0 {
      LoadKeepsSetKeys(env, lines[..|lines| - 1]);
    }
  }

  /** Every key the loader adds is the text before the first `=` of some line. */
  lemma {:induction false} LoadedKeysComeFromLines(env: map<string, string>, lines: seq<string>, k: string)
    requires k in ApplyEnvLines(env, lines) && k !in env
    ensures exists i | 0 <= i < |lines| :: '=' in lines[i] && FirstField(lines[i], '=') == k
  {
    if |lines| > 0 {
      var front := lines[..|lines| - 1];
      var last := lines[|lines| - 1];
      var before := ApplyEnvLines(env, front);
      if k in before {
        LoadedKeysComeFromLines(env, front, k);
        var i :| 0 <= i < |front| && '=' in front[i] && FirstField(front[i], '=') == k;
        assert lines[i] == front[i];
      } else {
        assert EnvLine(before, last) != before;
        assert lines[|lines| - 1] == last;
      }
    }
  }

  /** A line `KEY=a=b` sets an unset `KEY` to `a=b`: only the first `=` separates. */
  lemma {:induction false} ValueKeepsLaterEquals(env: map<string, string>, key: string, value: string)
    requires key != "" && '=' !in key && key !in env
    requires NoSpace(value)
    ensures EnvLine(env, key + "=" + value) == env[key := value]
  {
    var line := key + "=" + value;
    IndexOfAfterFreePrefix(key, '=', value);
    assert line[..|key|] == key;
    assert line[|key| + 1..] == value;
  }

  // ------------------------------------------------------------ parseServerString

  /** The port field: absent, or what `parseInt` made of the text after the comma
      (`Parsed(None)` is `NaN`). */
  datatype Port = Undefined | Parsed(value: Option<int>)

  datatype ServerConfig = ServerConfig(server: string, port: Port, instanceName: Option<string>)

  const Localhost := ServerConfig("localhost", Undefined, None)

  /** `parseServerString(serverString)`; `None` stands for `undefined`. */
  function ParseServerString(serverString: Option<string>): (c: ServerConfig)
    ensures serverString.None? || serverString == Some("") ==> c == Localhost
    ensures serverString.Some? && ',' !in serverString.value && '\\' !in serverString.value && serverString.value != "" ==>
      c == ServerConfig(serverString.value, Undefined, None)
    ensures serverString.Some? && ',' in serverString.value ==> c.port.Parsed? && c.instanceName.None?
    ensures serverString.Some? && ',' !in serverString.value && '\\' in serverString.value ==>
      c.port.Undefined? && c.instanceName.Some?
  {
    if serverString.None? || serverString.value == "" then Localhost
    else
      var s := serverString.value;
      if ',' in s then
        var parts := Split(s, ',');
        if |parts| < 2 then assert false; Localhost
        else
          var serverPart := Trim(parts[0]);
          var port := ParseInt(Trim(parts[1]));
          var server := if '\\' in serverPart then Trim(Split(serverPart, '\\')[0]) else serverPart;
          ServerConfig(server, Parsed(port), None)
      else if '\\' in s then
        var parts := Split(s, '\\');
        if |parts| < 2 then assert false; Localhost
        else ServerConfig(Trim(parts[0]), Undefined, Some(Trim(parts[1])))
      else
        ServerConfig(s, Undefined, None)
  }

  /** The `SERVER,PORT` form, which wins over a backslash: the server is the trimmed
      text before the first comma, cut at its first backslash; the port is
      `parseInt` of the trimmed text after the comma (up to a second comma); the
      instance is dropped. */
  lemma {:induction false} ParseCommaForm(s: string)
    requires ',' in s
    ensures var c := ParseServerString(Some(s));
      var serverPart := Trim(FirstField(s, ','));
      && c.instanceName == None
      && c.port == Parsed(ParseInt(Trim(FirstField(s[IndexOf(s, ',') + 1..], ','))))
      && c.server == (if '\\' in serverPart then Trim(FirstField(serverPart, '\\')) else serverPart)
  {
    SplitFields(s, ',');
    var serverPart := Trim(FirstField(s, ','));
    SplitFields(serverPart, '\\');
  }

  /** The `SERVER\INSTANCE` form without a comma: the trimmed text before the first
      backslash, and the trimmed text after it (up to a second backslash) as the
      instance; no port. */
  lemma {:induction false} ParseInstanceForm(s: string)
    requires ',' !in s && '\\' in s
    ensures ParseServerString(Some(s)) ==
      ServerConfig(Trim(FirstField(s, '\\')), Undefined, Some(Trim(FirstField(s[IndexOf(s, '\\') + 1..], '\\'))))
  {
    SplitFields(s, '\\');
  }

  /** `process.env.DB_SERVER || 'DGDARK\\SQL2022'`. */
  function EffectiveServerString(dbServer: Option<string>): (s: string)
    ensures s != ""
    ensures dbServer.Some? && dbServer.value != "" ==> s == dbServer.value
  {
    if dbServer.None? || dbServer.value == "" then "DGDARK\\SQL2022" else dbServer.value
  }

  /** At the call on line 92 the string is never empty, so the `localhost`
      fallback of `parseServerString` is only the result when `DB_SERVER` itself
      says `localhost`. */
  lemma {:induction false} LocalhostOnlyWhenConfigured(dbServer: Option<string>)
    ensures ParseServerString(Some(EffectiveServerString(dbServer))) == Localhost ==> dbServer == Some("localhost")
  {
  }

  /** `host\instance` with no backslash, comma or white space in either part
      parses to that host and instance. */
  lemma {:induction false} ParsePlainInstance(host: string, instance: string)
    requires '\\' !in host && '\\' !in instance && ',' !in host && ',' !in instance
    requires NoSpace(host) && NoSpace(instance)
    ensures ParseServerString(Some(host + ['\\'] + instance)) == ServerConfig(host, Undefined, Some(instance))
  {
    var s := host + ['\\'] + instance;
    IndexOfAfterFreePrefix(host, '\\', instance);
    assert s[..|host|] == host && s[|host| + 1..] == instance;
    assert ',' !in s by {
      forall i | 0 <= i < |s| ensures s[i] != ',' {
        if i < |host| { assert s[i] == host[i]; } else if i > |host| { assert s[i] == instance[i - |host| - 1]; }
      }
    }
    ParseInstanceForm(s);
  }

  /** Without `DB_SERVER` the default names server `DGDARK` and instance `SQL2022`. */
  lemma {:induction false} DefaultServer()
    ensures ParseServerString(Some(EffectiveServerString(None))) == ServerConfig("DGDARK", Undefined, Some("SQL2022"))
  {
    var host, instance := "DGDARK", "SQL2022";
    assert host + ['\\'] + instance == EffectiveServerString(None);
    assert '\\' !in host && '\\' !in instance && ',' !in host && ',' !in instance;
    assert NoSpace(host) && NoSpace(instance);
    ParsePlainInstance(host, instance);
  }

  // ------------------------------------------------------- port and instance choice

  /** The connection settings after lines 115-124: `port` is set when the parsed port
      is truthy (a number other than 0; `NaN` is not), `instanceName` when it is a
      non-empty string and the port is not truthy. */
  datatype Connection = Connection(server: string, port: Option<int>, instanceName: Option<string>)

  predicate PortIsTruthy(p: Port) {
    p.Parsed? && p.value.Some? && p.value.value != 0
  }

  predicate InstanceIsTruthy(i: Option<string>) {
    i.Some? && i.value != ""
  }

  /** The connection the settings describe. */
  function ConnectionFor(sc: ServerConfig): (conn: Connection)
    ensures conn.server == sc.server
    ensures conn.port.Some? <==> PortIsTruthy(sc.port)
    ensures conn.port.Some? ==> sc.port == Parsed(Some(conn.port.value)) && conn.port.value != 0
    ensures conn.instanceName.Some? <==> InstanceIsTruthy(sc.instanceName) && !PortIsTruthy(sc.port)
    ensures conn.instanceName.Some? ==> conn.instanceName == sc.instanceName
    ensures !(conn.port.Some? && conn.instanceName.Some?)
  {
    Connection(sc.server,
      if PortIsTruthy(sc.port) then Some(sc.port.value.value) else None,
      if InstanceIsTruthy(sc.instanceName) && !PortIsTruthy(sc.port) then sc.instanceName else None)
  }

  /** The config object is built with the server alone, then patched with the port
      and then with the instance name. */
  method Configure(sc: ServerConfig) returns (conn: Connection)
    ensures conn == ConnectionFor(sc)
  {
    conn := Connection(sc.server, None, None);
    if PortIsTruthy(sc.port) {
      conn := conn.(port := Some(sc.port.value.value));
    }
    if InstanceIsTruthy(sc.instanceName) && !PortIsTruthy(sc.port) {
      conn := conn.(instanceName := sc.instanceName);
    }
  }

  /** For a parsed server string, an instance name reaches the connection exactly
      in the `SERVER\INSTANCE` form with a non-empty instance, and a port exactly in
      the `SERVER,PORT` form with a port other than 0 or `NaN`. */
  lemma {:induction false} ConnectionOfServerString(serverString: Option<string>)
    ensures var conn := ConnectionFor(ParseServerString(serverString));
      conn.instanceName.Some? ==> serverString.Some? && ',' !in serverString.value && '\\' in serverString.value
    ensures var conn := ConnectionFor(ParseServerString(serverString));
      conn.port.Some? ==> serverString.Some? && ',' in serverString.value
  {
  }
}
