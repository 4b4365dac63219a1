/** The web server's port rules: the default port, the allowed range, the
    well-known ports that draw a warning, the port read from the
    environment, and the search for a free port. The environment value is a
    parameter and whether a port is free is an oracle. */
module PortConfig {
  import opened Wrappers
  import opened PyStr

  const DefaultPort := 8000
  const MinPort := 1024
  const MaxPort := 65535

  /** The well-known ports and what commonly uses them. */
  const ReservedPorts: map<int, string> := map[
    80 := "HTTP", 443 := "HTTPS", 3000 := "Common dev server",
    5000 := "Flask default", 8080 := "Common HTTP alt", 9000 := "Common service"]

  /** `validate_port`: `(is_valid, message)`. A port outside
      [`MinPort`, `MaxPort`] is invalid, with a message; a reserved port
      inside it is valid, with a warning; any other is valid, without one. */
  function ValidatePort(port: int): (r: (bool, Option<string>))
    ensures r.0 <==> MinPort <= port <= MaxPort
    ensures !r.0 ==> r.1 == Some("Port must be in range 1024-65535, got " + IntToString(port))
    ensures r.0 ==> (r.1.Some? <==> port in ReservedPorts)
  {
    if port < MinPort || port > MaxPort then
      (false, Some("Port must be in range 1024-65535, got " + IntToString(port)))
    else if port in ReservedPorts then
      (true, Some("\U{26A0} Warning: Port " + IntToString(port) + " (" + ReservedPorts[port] + ") is commonly used"))
    else (true, None)
  }

  /** HTTP's and HTTPS's ports lie below the range, so they are rejected
      rather than warned about; the other reserved ports are valid with a
      warning. */
  lemma ReservedPortsVerdict()
    ensures !ValidatePort(80).0 && !ValidatePort(443).0
    ensures forall p :: p in ReservedPorts && p >= MinPort ==> ValidatePort(p).0 && ValidatePort(p).1.Some?
  {
  }

  /** `get_port_from_env`, given the value of `API_PORT` if set: that port
      when it parses as an integer and validates, `DefaultPort` otherwise;
      always a valid port. */
  function GetPortFromEnv(env: Option<string>): (port: int)
    ensures ValidatePort(port).0
    ensures var v := ParseInt(env.GetOr(IntToString(DefaultPort)));
      port == if v.Some? && ValidatePort(v.value).0 then v.value else DefaultPort
  {
    var v := ParseInt(env.GetOr(IntToString(DefaultPort)));
    if v.Some? && ValidatePort(v.value).0 then v.value else DefaultPort
  }

  /** A valid port written into `API_PORT` is the port read back; an
      out-of-range one falls back to the default. */
  lemma EnvPortRoundTrip(p: int)
    ensures ValidatePort(p).0 ==> GetPortFromEnv(Some(IntToString(p))) == p
    ensures !ValidatePort(p).0 ==> GetPortFromEnv(Some(IntToString(p))) == DefaultPort
  {
    IntStringRoundTrip(p);
  }

  /** `find_available_port`: the first of `start, start + 1, ...` (at most
      `maxAttempts` of them) that `available` accepts; RuntimeError when
      none is. */
  method FindAvailablePort(start: int, maxAttempts: int, available: int -> bool) returns (r: Result<int, string>)
    ensures r.Success? ==>
      && start <= r.value < start + maxAttempts && available(r.value)
      && forall q :: start <= q < r.value ==> !available(q)
    ensures r.Failure? <==> forall q :: start <= q < start + maxAttempts ==> !available(q)
    ensures r.Failure? ==>
      r.error == "Could not find available port in range " + IntToString(start) + "-" + IntToString(start + maxAttempts - 1)
  {
    var offset := 0;
    while offset < maxAttempts
      invariant 0 <= offset && (maxAttempts >= 0 ==> offset <= maxAttempts)
      invariant forall q :: start <= q < start + offset ==> !available(q)
    {
      var port := start + offset;
      if available(port) {
        return Success(port);
      }
      offset := offset + 1;
    }
    r := Failure("Could not find available port in range " + IntToString(start) + "-" + IntToString(start + maxAttempts - 1));
  }
}

/** The server settings read from the environment: host, port and the
    allowed CORS origins, each with a default. */
module ApiConfig {
  import opened Wrappers
  import opened PyStr

  /** The parts of a list, in order, without the empty ones. */
  function NonEmpty(parts: seq<string>): (r: seq<string>)
    ensures forall k :: 0 <= k < |r| ==> r[k] != "" && r[k] in parts
    ensures forall s :: s in parts && s != "" ==> s in r
    ensures |r| <= |parts|
  {
    if |parts| == 0 then []
    else if parts[0] == "" then NonEmpty(parts[1..])
    else [parts[0]] + NonEmpty(parts[1..])
  }

  /** `_parse_origins`: `["*"]` when unset or empty, otherwise the
      comma-separated parts, stripped, without the empty ones. */
  function ParseOrigins(value: Option<string>): (r: seq<string>)
    ensures value.None? || value == Some("") ==> r == ["*"]
    ensures value.Some? && value.value != "" ==>
      forall k :: 0 <= k < |r| ==> r[k] != "" && Strip(r[k]) == r[k]
    ensures value.Some? && value.value != "" ==>
      forall o :: o in r <==> o != "" && exists p :: p in Split(value.value, ',') && Strip(p) == o
    ensures value.Some? && value.value != "" ==> |r| <= |Split(value.value, ',')|
  {
    if value.None? || value.value == "" then ["*"]
    else
      var parts := Split(value.value, ',');
      StrippedMembers(parts);
      StrippedClean(parts);
      NonEmpty(Stripped(parts))
  }

  /** Each part, stripped. */
  function Stripped(parts: seq<string>): (r: seq<string>)
    ensures |r| == |parts| && forall k :: 0 <= k < |parts| ==> r[k] == Strip(parts[k])
  {
    seq(|parts|, k requires 0 <= k < |parts| => Strip(parts[k]))
  }

  lemma StrippedMembers(parts: seq<string>)
    ensures forall o :: o in Stripped(parts) <==> exists p :: p in parts && Strip(p) == o
  {
    var stripped := Stripped(parts);
    forall o | o in stripped
      ensures exists p :: p in parts && Strip(p) == o
    {
      var k :| 0 <= k < |stripped| && stripped[k] == o;
      assert parts[k] in parts && Strip(parts[k]) == o;
    }
    forall o, p | p in parts && Strip(p) == o
      ensures o in stripped
    {
      var k :| 0 <= k < |parts| && parts[k] == p;
      assert stripped[k] == o;
    }
  }

  lemma StrippedClean(parts: seq<string>)
    ensures forall o :: o in Stripped(parts) ==> Strip(o) == o
  {
    forall o | o in Stripped(parts)
      ensures Strip(o) == o
    {
      var k :| 0 <= k < |parts| && Stripped(parts)[k] == o;
      StripIdempotent(parts[k]);
    }
  }

  /** Dropping the empty parts keeps the order: it works part by part. */
  lemma {:induction false} NonEmptyAppend(a: seq<string>, b: seq<string>)
    ensures NonEmpty(a + b) == NonEmpty(a) + NonEmpty(b)
  {
    if |a| == 0 {
      assert a + b == b;
    } else {
      var c := a + b;
      assert c[0] == a[0];
      assert c[1..] == a[1..] + b;
      NonEmptyAppend(a[1..], b);
      if a[0] == "" {
        assert NonEmpty(c) == NonEmpty(a[1..] + b);
        assert NonEmpty(a) == NonEmpty(a[1..]);
      } else {
        assert NonEmpty(c) == [a[0]] + NonEmpty(a[1..] + b);
        assert NonEmpty(a) == [a[0]] + NonEmpty(a[1..]);
      }
    }
  }

  /** What one comma-free part contributes: its stripped text, unless that
      is empty. */
  function OriginOf(part: string): seq<string> {
    if Strip(part) == "" then [] else [Strip(part)]
  }

  /** A value without a comma gives its one part's origin. */
  lemma OriginsSingle(w: string)
    requires w != "" && ',' !in w
    ensures ParseOrigins(Some(w)) == OriginOf(w)
  {
    SplitNoSep(w, ',');
    StrippedCons(w, []);
    NonEmptyOne(w);
  }

  /** The origins of `w,t` are the first part's origin followed by the
      origins of `t`: together with `OriginsSingle` this fixes which parts
      come back and in what order. */
  lemma OriginsCons(w: string, t: string)
    requires ',' !in w && t != ""
    ensures ParseOrigins(Some(w + [','] + t)) == OriginOf(w) + ParseOrigins(Some(t))
  {
    var v := w + [','] + t;
    var rest := Split(t, ',');
    assert ParseOrigins(Some(v)) == NonEmpty(Stripped(Split(v, ',')));
    assert ParseOrigins(Some(t)) == NonEmpty(Stripped(rest));
    SplitPrefix(w, t, ',');
    StrippedCons(w, rest);
    NonEmptyAppend([Strip(w)], Stripped(rest));
    NonEmptyOne(w);
  }

  lemma StrippedCons(w: string, rest: seq<string>)
    ensures Stripped([w] + rest) == [Strip(w)] + Stripped(rest)
  {
  }

  lemma NonEmptyOne(w: string)
    ensures NonEmpty([Strip(w)]) == OriginOf(w)
  {
    NonEmptyAppend([Strip(w)], []);
    assert [Strip(w)] + [] == [Strip(w)];
  }

  /** A blank part between two origins is dropped, and the two keep their
      order: "a, ,b" reads as ["a", "b"]. */
  lemma OriginsDropBlank(a: string, blank: string, b: string)
    requires a != "" && ',' !in a && !IsSpace(a[0]) && !IsSpace(a[|a| - 1])
    requires forall i :: 0 <= i < |blank| ==> IsSpace(blank[i])
    requires b != "" && ',' !in b && !IsSpace(b[0]) && !IsSpace(b[|b| - 1])
    ensures ParseOrigins(Some(a + [','] + blank + [','] + b)) == [a, b]
  {
    OriginsBlankThen(blank, b);
    assert a + [','] + blank + [','] + b == a + [','] + (blank + [','] + b);
    OriginsCons(a, blank + [','] + b);
    StripUnchanged(a);
  }

  /** A blank part followed by one clean origin gives that origin. */
  lemma OriginsBlankThen(blank: string, w: string)
    requires forall i :: 0 <= i < |blank| ==> IsSpace(blank[i])
    requires w != "" && ',' !in w && !IsSpace(w[0]) && !IsSpace(w[|w| - 1])
    ensures ParseOrigins(Some(blank + [','] + w)) == [w]
  {
    OriginsCons(blank, w);
    OriginsSingle(w);
    StripUnchanged(w);
    BlankStrip(blank);
  }

  lemma {:induction false} NonEmptyKeeps(parts: seq<string>)
    requires forall k :: 0 <= k < |parts| ==> parts[k] != ""
    ensures NonEmpty(parts) == parts
  {
    if |parts| > 0 {
      NonEmptyKeeps(parts[1..]);
    }
  }

  lemma {:induction false} NonEmptyDrops(parts: seq<string>)
    requires forall k :: 0 <= k < |parts| ==> parts[k] == ""
    ensures NonEmpty(parts) == []
  {
    if |parts| > 0 {
      NonEmptyDrops(parts[1..]);
    }
  }

  /** A list of origins, written comma-separated, is read back as is. */
  lemma OriginsRoundTrip(origins: seq<string>)
    requires |origins| > 0
    requires forall k :: 0 <= k < |origins| ==> origins[k] != "" && ',' !in origins[k] && Strip(origins[k]) == origins[k]
    ensures ParseOrigins(Some(Join(origins, ','))) == origins
  {
    var s := Join(origins, ',');
    SplitJoin(origins, ',');
    JoinStarts(origins, ',');
    var stripped := Stripped(origins);
    assert stripped == origins;
    NonEmptyKeeps(origins);
  }

  lemma {:induction false} JoinStarts(parts: seq<string>, sep: char)
    requires |parts| > 0
    ensures parts[0] <= Join(parts, sep)
  {
    if |parts| > 1 {
      assert Join(parts, sep) == parts[0] + ([sep] + Join(parts[1..], sep));
    }
  }

  /** Every character of a piece of a split occurs in the string. */
  lemma {:induction false} SplitChars(s: string, sep: char)
    ensures forall k, i :: 0 <= k < |Split(s, sep)| && 0 <= i < |Split(s, sep)[k]| ==> Split(s, sep)[k][i] in s
  {
    if |s| > 0 {
      SplitChars(s[1..], sep);
      var rest := Split(s[1..], sep);
      var parts := Split(s, sep);
      forall k, i | 0 <= k < |parts| && 0 <= i < |parts[k]|
        ensures parts[k][i] in s
      {
        if s[0] == sep {
          assert parts[k] == ([""] + rest)[k];
          assert parts[k][i] in s[1..];
        } else if k == 0 {
          assert parts[0] == [s[0]] + rest[0];
          if i > 0 {
            assert parts[0][i] == rest[0][i - 1];
            assert rest[0][i - 1] in s[1..];
          }
        } else {
          assert parts[k] == rest[k];
          assert parts[k][i] in s[1..];
        }
      }
    }
  }

  /** A string of whitespace strips to nothing. */
  lemma BlankStrip(s: string)
    requires forall i :: 0 <= i < |s| ==> IsSpace(s[i])
    ensures Strip(s) == ""
  {
  }

  /** A non-empty value made only of commas and whitespace allows no
      origin at all, rather than every origin. */
  lemma SeparatorsOnly(value: string)
    requires value != "" && forall i :: 0 <= i < |value| ==> value[i] == ',' || IsSpace(value[i])
    ensures ParseOrigins(Some(value)) == []
  {
    var parts := Split(value, ',');
    SplitChars(value, ',');
    var stripped := Stripped(parts);
    forall k | 0 <= k < |parts|
      ensures stripped[k] == ""
    {
      forall i | 0 <= i < |parts[k]|
        ensures IsSpace(parts[k][i])
      {
        assert parts[k][i] in value && parts[k][i] != ',';
      }
      BlankStrip(parts[k]);
    }
    NonEmptyDrops(stripped);
  }

  datatype Settings = Settings(host: string, port: int, corsOrigins: seq<string>)

  /** `get_server_settings`, given `API_HOST`, `API_PORT` and
      `CORS_ORIGINS` if set: host "0.0.0.0" and port 8000 by default, the
      port also 8000 when it does not parse as an integer (it is not range
      checked here), and the origins as `ParseOrigins` reads them. */
  function GetServerSettings(hostEnv: Option<string>, portEnv: Option<string>, corsEnv: Option<string>): (s: Settings)
    ensures hostEnv.None? ==> s.host == "0.0.0.0"
    ensures hostEnv.Some? ==> s.host == hostEnv.value
    ensures portEnv.None? ==> s.port == 8000
    ensures portEnv.Some? ==> s.port == ParseInt(portEnv.value).GetOr(8000)
    ensures corsEnv.None? ==> s.corsOrigins == ["*"]
    ensures s.corsOrigins == ParseOrigins(corsEnv)
  {
    var port := if portEnv.None? then 8000 else ParseInt(portEnv.value).GetOr(8000);
    Settings(hostEnv.GetOr("0.0.0.0"), port, ParseOrigins(corsEnv))
  }

  /** Any integer written into `API_PORT` is the port the settings carry,
      in range or not. */
  lemma SettingsPortRoundTrip(hostEnv: Option<string>, p: int, corsEnv: Option<string>)
    ensures GetServerSettings(hostEnv, Some(IntToString(p)), corsEnv).port == p
  {
    IntStringRoundTrip(p);
  }
}

/** The two sprite sets, 8 and 16 pixels, and where each lives. */
module SpriteConfig {
  import opened Wrappers
  import opened PyStr

  const DefaultSpriteSize := 16
  const SupportedSpriteSizes := [8, 16]
  const SpriteDirectories: map<int, string> := map[8 := "assets/8x8", 16 := "assets/16x16"]

  /** `get_sprite_directory`: the directory of a supported size; ValueError
      naming the size and the supported ones otherwise. */
  function GetSpriteDirectory(size: int): (r: Result<string, string>)
    ensures r.Success? <==> size == 8 || size == 16
    ensures size == 8 ==> r == Success("assets/8x8")
    ensures size == 16 ==> r == Success("assets/16x16")
    ensures r.Failure? ==> r.error == "Unsupported sprite size: " + IntToString(size) + ". Supported sizes: [8, 16]"
  {
    if size !in SupportedSpriteSizes then
      Failure("Unsupported sprite size: " + IntToString(size) + ". Supported sizes: [8, 16]")
    else Success(SpriteDirectories[size])
  }

  /** The default size is supported, and every supported size has a
      directory. */
  lemma SpriteTablesAgree()
    ensures DefaultSpriteSize in SupportedSpriteSizes
    ensures forall s :: s in SupportedSpriteSizes ==> s in SpriteDirectories && GetSpriteDirectory(s).Success?
  {
  }
}
