/** getConnectString: the store's data source name, taken whole from <prefix>DSN or
    assembled from the other <prefix> variables with their defaults. The process
    environment is passed in as a map; a variable that is not in it reads as "", as
    os.Getenv returns for an unset variable. */
module Config {
  import opened Wrappers
  import opened Text

  type Env = map<string, string>

  /** os.Getenv: the value, or "" when the variable is unset. */
  function Getenv(env: Env, key: string): string
  {
    if key in env then env[key] else ""
  }

  /** The value when set and not empty, else the default. */
  function OrDefault(v: string, default: string): (r: string)
    ensures v != "" ==> r == v
    ensures v == "" ==> r == default
  {
    if v == "" then default else v
  }

  const DefaultProto := "tcp"
  const DefaultHost := "localhost"
  const DefaultPort := "3306"
  const DefaultParams := "?charset=utf8&parseTime=true"

  /** The parts of an assembled DSN. */
  datatype DsnParts = DsnParts(user: string, pass: string, proto: string, host: string, port: string,
                               db: string, params: string)

  /** The user comes from <prefix>USR, then <prefix>USER; proto, host, port and params
      fall back to their defaults; params "-" asks for no parameters at all. */
  function Settings(env: Env, prefix: string): (c: DsnParts)
    ensures c.user == if Getenv(env, prefix + "USR") != "" then Getenv(env, prefix + "USR")
                      else Getenv(env, prefix + "USER")
    ensures c.pass == Getenv(env, prefix + "PASS") && c.db == Getenv(env, prefix + "DB")
    ensures Getenv(env, prefix + "PROTO") == "" ==> c.proto == DefaultProto
    ensures Getenv(env, prefix + "HOST") == "" ==> c.host == DefaultHost
    ensures Getenv(env, prefix + "PORT") == "" ==> c.port == DefaultPort
    ensures Getenv(env, prefix + "PARAMS") == "" ==> c.params == DefaultParams
    ensures Getenv(env, prefix + "PARAMS") == "-" ==> c.params == ""
    ensures c.proto != "" && c.host != "" && c.port != ""
  {
    var params := OrDefault(Getenv(env, prefix + "PARAMS"), DefaultParams);
    DsnParts(OrDefault(Getenv(env, prefix + "USR"), Getenv(env, prefix + "USER")),
             Getenv(env, prefix + "PASS"),
             OrDefault(Getenv(env, prefix + "PROTO"), DefaultProto),
             OrDefault(Getenv(env, prefix + "HOST"), DefaultHost),
             OrDefault(Getenv(env, prefix + "PORT"), DefaultPort),
             Getenv(env, prefix + "DB"),
             if params == "-" then "" else params)
  }

  /** The pieces of `%s:%s@%s(%s:%s)/%s%s`, in order. */
  function Pieces(c: DsnParts): seq<string>
  {
    [c.user, ":", c.pass, "@", c.proto, "(", c.host, ":", c.port, ")/", c.db, c.params]
  }

  function Render(c: DsnParts): string
  {
    Concat(Pieces(c))
  }

  /** getConnectString; an empty <prefix>DB (without a DSN) is fatal. */
  function GetConnectString(env: Env, prefix: string): Result<string>
  {
    var dsn := Getenv(env, prefix + "DSN");
    if dsn != "" then Ok(dsn)
    else if Getenv(env, prefix + "DB") == "" then Fatal("please specify database via " + prefix + "DB=...")
    else Ok(Render(Settings(env, prefix)))
  }

  // ---- properties ----

  lemma {:induction false} ConcatSplit(parts: seq<string>, k: nat)
    requires k <= |parts|
    ensures Concat(parts) == Concat(parts[..k]) + Concat(parts[k..])
  {
    if k > 0 {
      assert parts[1..][..k - 1] == parts[..k][1..];
      assert parts[1..][k - 1..] == parts[k..];
      ConcatSplit(parts[1..], k - 1);
    } else {
      assert parts[k..] == parts;
    }
  }

  lemma ConcatTwo(a: string, b: string)
    ensures Concat([a, b]) == a + b
  {
    assert [a, b][1..] == [b];
    assert Concat([b]) == b;
  }

  lemma ConcatThree(a: string, b: string, c: string)
    ensures Concat([a, b, c]) == a + b + c
  {
    assert [a, b, c][1..] == [b, c];
    ConcatTwo(b, c);
  }

  /** A set DSN is used as it is, and then no other variable matters. */
  lemma DsnWins(env1: Env, env2: Env, prefix: string)
    requires Getenv(env1, prefix + "DSN") != ""
    requires Getenv(env2, prefix + "DSN") == Getenv(env1, prefix + "DSN")
    ensures GetConnectString(env1, prefix) == Ok(Getenv(env1, prefix + "DSN"))
    ensures GetConnectString(env1, prefix) == GetConnectString(env2, prefix)
  {
  }

  /** The only fatal case: neither a DSN nor a database name. */
  lemma ConnectStringFatal(env: Env, prefix: string)
    ensures GetConnectString(env, prefix).Fatal? <==>
      Getenv(env, prefix + "DSN") == "" && Getenv(env, prefix + "DB") == ""
  {
  }

  /** The rendering is the pieces run together. */
  lemma RenderPieces(c: DsnParts)
    ensures Render(c) == c.user + ":" + c.pass + "@" + c.proto + "(" + c.host + ":" + c.port + ")/" + c.db + c.params
  {
    var ps := Pieces(c);
    ConcatSplit(ps, 6);
    assert ps[..6] == [c.user, ":", c.pass, "@", c.proto, "("];
    assert ps[6..] == [c.host, ":", c.port, ")/", c.db, c.params];
    SixPieces(c.user, ":", c.pass, "@", c.proto, "(");
    SixPieces(c.host, ":", c.port, ")/", c.db, c.params);
  }

  /** A rendered DSN begins with the user and a colon and ends with `)/`, the database
      name and the parameters. */
  lemma RenderShape(c: DsnParts)
    ensures var s := Render(c);
      var tail := ")/" + c.db + c.params;
      |s| >= |c.user| + 1 + |tail|
      && s[..|c.user| + 1] == c.user + ":"
      && s[|s| - |tail|..] == tail
  {
    RenderPieces(c);
    var head := c.user + ":";
    var mid := c.pass + "@" + c.proto + "(" + c.host + ":" + c.port;
    var tail := ")/" + c.db + c.params;
    assert Render(c) == head + mid + tail;
    Ends(head, mid, tail);
  }

  lemma Ends(a: string, m: string, t: string)
    ensures (a + m + t)[..|a|] == a && (a + m + t)[|a + m + t| - |t|..] == t
  {
  }

  /** Without a DSN but with a database name, the DSN is assembled from the settings. */
  lemma AssembledShape(env: Env, prefix: string)
    requires Getenv(env, prefix + "DSN") == "" && Getenv(env, prefix + "DB") != ""
    ensures GetConnectString(env, prefix) == Ok(Render(Settings(env, prefix)))
    ensures var s := GetConnectString(env, prefix).value;
      var c := Settings(env, prefix);
      var tail := ")/" + c.db + c.params;
      |s| >= |c.user| + 1 + |tail|
      && s[..|c.user| + 1] == c.user + ":"
      && s[|s| - |tail|..] == tail
  {
    RenderShape(Settings(env, prefix));
  }

  /** With only the password and the database set, every default applies. */
  lemma ConnectStringDefaults(env: Env, prefix: string)
    requires Getenv(env, prefix + "DSN") == "" && Getenv(env, prefix + "DB") != ""
    requires Getenv(env, prefix + "USR") == "" && Getenv(env, prefix + "USER") == ""
    requires Getenv(env, prefix + "PROTO") == "" && Getenv(env, prefix + "HOST") == ""
    requires Getenv(env, prefix + "PORT") == "" && Getenv(env, prefix + "PARAMS") == ""
    ensures GetConnectString(env, prefix) == Ok(Render(DsnParts("", Getenv(env, prefix + "PASS"),
      DefaultProto, DefaultHost, DefaultPort, Getenv(env, prefix + "DB"), DefaultParams)))
  {
  }

  lemma SixPieces(a: string, b: string, c: string, d: string, e: string, f: string)
    ensures Concat([a, b, c, d, e, f]) == a + b + c + d + e + f
  {
    assert [a, b, c, d, e, f][1..] == [b, c, d, e, f];
    ConcatFive(b, c, d, e, f);
  }
}
