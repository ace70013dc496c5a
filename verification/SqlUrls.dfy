/**
  SQL connection strings: pkg/util/option/optionutil.go prints them,
  pkg/service-init/component/dbutil.go reads database, user and password back.
 */
module SqlUrls {

  /* ---------- printing ---------- */

  const OPTIONS := "charset=utf8" + ("&parseTime=true" + "&interpolateParams=true")

  /** `%d` */
  function Decimal(n: int): (s: string)
    ensures s != "" && Clean(s)
    decreases if n < 0 then 1 - n else n
  {
    if n < 0 then "-" + Decimal(-n)
    else if n < 10 then [('0' as int + n) as char]
    else Decimal(n / 10) + Decimal(n % 10)
  }

  /** `FormatHost`: an IPv6 address goes into brackets; whether `net.ParseIP` sees one is a parameter. */
  function FormatHost(host: string, ipv6: bool): string {
    if ipv6 then "[" + host + "]" else host
  }

  function Print(scheme: string, user: string, password: string, host: string, port: int, tail: string): string {
    scheme + ("://" + (user + (":" + (password + ("@" + (host + (":" + (Decimal(port) + ("/" + tail)))))))))
  }

  function MysqlUrl(user: string, password: string, host: string, port: int, database: string): string {
    Print("mysql+pymysql", user, password, host, port, database + ("?" + OPTIONS))
  }

  function DamengUrl(user: string, password: string, host: string, port: int, database: string): string {
    Print("dm", user, password, host, port, database)
  }

  /** The options struct that the setters fill in. */
  class DBOptions {
    var sqlConnection: string

    method SetMysqlOptions(host: string, ipv6: bool, port: int, user: string, password: string, database: string)
      modifies this
      ensures sqlConnection == MysqlUrl(user, password, FormatHost(host, ipv6), port, database)
      ensures Parse(sqlConnection) == Ok(DBConfig(database, user, password))
        <==> GoodLogin(user, password, FormatHost(host, ipv6)) && database != "" && Clean(database) && '?' !in database
    {
      hide Parse, GoodLogin, MysqlUrl;
      MysqlRoundTripIff(user, password, FormatHost(host, ipv6), port, database);
      var formatted := FormatHost(host, ipv6);
      sqlConnection := MysqlUrl(user, password, formatted, port, database);
    }

    method SetDamengOptions(host: string, ipv6: bool, port: int, user: string, password: string, database: string)
      modifies this
      ensures sqlConnection == DamengUrl(user, password, FormatHost(host, ipv6), port, database)
      ensures Parse(sqlConnection) == Ok(DBConfig(database, user, password))
        <==> GoodLogin(user, password, FormatHost(host, ipv6)) && Clean(database) && '?' !in database
    {
      hide Parse, GoodLogin, DamengUrl;
      DamengRoundTripIff(user, password, FormatHost(host, ipv6), port, database);
      var formatted := FormatHost(host, ipv6);
      sqlConnection := DamengUrl(user, password, formatted, port, database);
    }
  }

  /** The number that a run of digits stands for. */
  function Digits(s: string): int {
    if s == "" then 0 else 10 * Digits(s[..|s| - 1]) + (s[|s| - 1] as int - '0' as int)
  }

  function ValueOf(s: string): int {
    if s != "" && s[0] == '-' then -Digits(s[1..]) else Digits(s)
  }

  lemma {:induction false} DigitsReadBack(n: nat)
    ensures Digits(Decimal(n)) == n && Decimal(n)[0] != '-'
  {
    var s := Decimal(n);
    if n < 10 {
      assert s == [('0' as int + n) as char] && s[..0] == "" && Digits("") == 0;
    } else {
      var last := ('0' as int + n % 10) as char;
      assert Decimal(n % 10) == [last];
      assert s == Decimal(n / 10) + [last] && s[..|s| - 1] == Decimal(n / 10);
      DigitsReadBack(n / 10);
    }
  }

  /** A printed number is read back. */
  lemma DecimalReadsBack(n: int)
    ensures ValueOf(Decimal(n)) == n
  {
    if n < 0 {
      assert Decimal(n) == "-" + Decimal(-n) && Decimal(n)[1..] == Decimal(-n);
      DigitsReadBack(-n);
    } else {
      DigitsReadBack(n);
    }
  }

  /* ---------- reading ---------- */

  predicate IsSep(c: char) {
    c == '/' || c == '@' || c == ':'
  }

  /** Free of separators. */
  predicate Clean(s: string) {
    forall i | 0 <= i < |s| :: !IsSep(s[i])
  }

  /** Length of the longest prefix without separators. */
  function Piece(s: string): (k: nat)
    ensures k <= |s| && Clean(s[..k]) && (k < |s| ==> IsSep(s[k]))
  {
    if s == "" || IsSep(s[0]) then 0
    else
      var k := 1 + Piece(s[1..]);
      assert s[..k] == [s[0]] + s[1..][..k - 1];
      k
  }

  function DropSeps(s: string): (r: string)
    ensures |r| <= |s| && (r == "" || !IsSep(r[0]))
  {
    if s == "" || !IsSep(s[0]) then s else DropSeps(s[1..])
  }

  /** `regexp.MustCompile("[/@:]+").Split(s, -1)`. */
  function Fields(s: string): (f: seq<string>)
    ensures f != []
    ensures forall i | 0 <= i < |f| :: Clean(f[i])
    ensures forall i | 0 < i < |f| - 1 :: f[i] != ""
    ensures s != "" && !IsSep(s[0]) ==> f[0] != ""
    decreases |s|
  {
    var k := Piece(s);
    if k == |s| then
      assert s[..k] == s;
      [s]
    else
      var rest := DropSeps(s[k + 1..]);
      [s[..k]] + (if rest == "" then [""] else Fields(rest))
  }

  datatype DBConfig = DBConfig(database: string, username: string, password: string)

  /** The source panics when it writes into the nil map that an empty query string leaves behind. */
  datatype Parsed = Ok(config: DBConfig) | Err | Panic

  predicate IsHex(c: char) {
    '0' <= c <= '9' || 'a' <= c <= 'f' || 'A' <= c <= 'F'
  }

  /** What `url.ParseQuery` accepts: no semicolon, and every percent sign starts an escape. */
  predicate ValidQuery(q: string) {
    && ';' !in q
    && forall i | 0 <= i < |q| && q[i] == '%' :: i + 2 < |q| && IsHex(q[i + 1]) && IsHex(q[i + 2])
  }

  /** Length of the longest prefix without a question mark. */
  function BeforeQuery(s: string): (k: nat)
    ensures k <= |s| && '?' !in s[..k] && (k < |s| ==> s[k] == '?')
  {
    if s == "" || s[0] == '?' then 0
    else
      var k := 1 + BeforeQuery(s[1..]);
      assert s[..k] == [s[0]] + s[1..][..k - 1];
      k
  }

  /** `ParseSQLAchemyURL` */
  function Parse(src: string): Parsed {
    var f := Fields(src);
    if src == "" || |f| != 6 then Err
    else
      var dburl := f[5];
      var pos := BeforeQuery(dburl);
      if pos == |dburl| then Ok(DBConfig(dburl, f[1], f[2]))
      else if pos == 0 then Err
      else
        var query := dburl[pos + 1..];
        if query == "" then Panic
        else if !ValidQuery(query) then Err
        else Ok(DBConfig(dburl[..pos], f[1], f[2]))
  }

  /* ---------- splitting what was put together ---------- */

  /** The maximal separator-free pieces of a string. */
  function Pieces(s: string): (p: seq<string>)
    ensures (exists i :: 0 <= i < |s| && !IsSep(s[i])) <==> p != []
    decreases |s|
  {
    if s == "" then []
    else if IsSep(s[0]) then Pieces(s[1..])
    else
      assert Piece(s) > 0;
      [s[..Piece(s)]] + Pieces(s[Piece(s)..])
  }

  lemma {:induction false} PieceConcat(a: string, b: string)
    requires Clean(a) && (b == "" || IsSep(b[0]))
    ensures Piece(a + b) == |a|
  {
    if a == "" {
      assert a + b == b;
    } else {
      assert (a + b)[1..] == a[1..] + b;
      PieceConcat(a[1..], b);
    }
  }

  lemma {:induction false} DropSepsConcat(a: string, b: string)
    ensures DropSeps(a + b) == if DropSeps(a) == "" then DropSeps(b) else DropSeps(a) + b
  {
    if a == "" {
      assert a + b == b;
    } else if IsSep(a[0]) {
      assert (a + b)[1..] == a[1..] + b;
      DropSepsConcat(a[1..], b);
    }
  }

  lemma FieldsOfClean(a: string)
    requires Clean(a)
    ensures Fields(a) == [a]
  {
    PieceConcat(a, "");
    assert a + "" == a;
    hide Clean, Piece;
  }

  /** After a clean string, a separator starts the next field. */
  lemma FieldsAfter(a: string, sep: char, b: string)
    requires Clean(a) && IsSep(sep)
    ensures Fields(a + ([sep] + b)) == [a] + Fields(DropSeps(b))
  {
    var s := a + ([sep] + b);
    PieceConcat(a, [sep] + b);
    assert s[..|a|] == a && s[|a| + 1..] == b;
    hide Clean, Piece, DropSeps;
    assert Fields("") == [""] by {
      FieldsOfClean("");
    }
  }

  lemma {:induction false} PiecesDropSeps(s: string)
    ensures Pieces(DropSeps(s)) == Pieces(s)
  {
    if s != "" && IsSep(s[0]) {
      PiecesDropSeps(s[1..]);
    }
  }

  lemma PieceAlone(s: string)
    requires s != "" && Clean(s)
    ensures Pieces(s) == [s]
  {
    PieceConcat(s, "");
    assert s + "" == s && s[..|s|] == s && s[|s|..] == "";
  }

  lemma {:induction false} PiecesConcat(a: string, sep: char, b: string)
    requires IsSep(sep)
    ensures Pieces(a + ([sep] + b)) == Pieces(a) + Pieces(b)
    decreases |a|
  {
    var s := a + ([sep] + b);
    if a == "" {
      assert s == [sep] + b && s[1..] == b;
    } else if IsSep(a[0]) {
      assert s[1..] == a[1..] + ([sep] + b);
      PiecesConcat(a[1..], sep, b);
    } else {
      var k := Piece(a);
      PieceOfConcat(a, sep, b);
      hide Piece;
      PiecesConcat(a[k..], sep, b);
      assert [a[..k]] + (Pieces(a[k..]) + Pieces(b)) == ([a[..k]] + Pieces(a[k..])) + Pieces(b);
    }
  }

  lemma {:induction false} PieceBeforeSep(a: string, b: string)
    requires b != "" && IsSep(b[0])
    ensures Piece(a + b) == Piece(a)
  {
    if a == "" {
      assert a + b == b;
    } else if !IsSep(a[0]) {
      assert (a + b)[1..] == a[1..] + b;
      PieceBeforeSep(a[1..], b);
    }
  }

  lemma PieceOfConcat(a: string, sep: char, b: string)
    requires IsSep(sep) && a != "" && !IsSep(a[0])
    ensures var s, k := a + ([sep] + b), Piece(a);
      0 < k && Piece(s) == k && s[..k] == a[..k] && s[k..] == a[k..] + ([sep] + b)
  {
    PieceBeforeSep(a, [sep] + b);
    assert Piece(a) > 0;
    hide Piece, Clean;
    TakeDrop(a, [sep] + b, Piece(a));
  }

  lemma TakeDrop(a: string, b: string, k: nat)
    requires k <= |a|
    ensures (a + b)[..k] == a[..k] && (a + b)[k..] == a[k..] + b
  {
  }

  predicate EndsInSep(s: string) {
    s != "" && IsSep(s[|s| - 1])
  }

  lemma PiecesStep(s: string)
    requires s != "" && !IsSep(s[0]) && Piece(s) < |s|
    ensures Pieces(s) == [s[..Piece(s)]] + Pieces(s[Piece(s) + 1..])
  {
    assert s[Piece(s)..][1..] == s[Piece(s) + 1..];
  }

  lemma CleanEnd(s: string)
    requires Clean(s)
    ensures !EndsInSep(s)
  {
  }

  lemma FieldsOfNothing()
    ensures Fields("") == [""] && Pieces("") == []
  {
    FieldsOfClean("");
  }

  /** The fields of a string that starts with a piece are its pieces, and an empty one if it ends in a separator. */
  lemma {:induction false} FieldsArePieces(s: string)
    requires s != "" && !IsSep(s[0])
    ensures Fields(s) == Pieces(s) + if EndsInSep(s) then [""] else []
    decreases |s|
  {
    hide Fields, Pieces, Clean, DropSeps;
    var k := Piece(s);
    if k == |s| {
      assert s[..k] == s;
      FieldsOfClean(s);
      PieceAlone(s);
      CleanEnd(s);
    } else {
      var rest := s[k + 1..];
      PiecesStep(s);
      assert s == s[..k] + ([s[k]] + rest);
      FieldsAfter(s[..k], s[k], rest);
      PiecesDropSeps(rest);
      EndAfterSeps(rest);
      assert EndsInSep(s) <==> rest == "" || EndsInSep(rest);
      if DropSeps(rest) == "" {
        FieldsOfNothing();
      } else {
        FieldsArePieces(DropSeps(rest));
      }
    }
  }

  lemma {:induction false} EndAfterSeps(s: string)
    ensures if DropSeps(s) == "" then s == "" || EndsInSep(s) else EndsInSep(s) <==> EndsInSep(DropSeps(s))
  {
    if s != "" && IsSep(s[0]) {
      EndAfterSeps(s[1..]);
    }
  }

  lemma PrintAppend(
      scheme: string, user: string, password: string, host: string, port: int, tail: string, more: string)
    ensures Print(scheme, user, password, host, port, tail + more)
         == Print(scheme, user, password, host, port, tail) + more
  {
    hide Decimal;
    var a := "/" + tail;
    assert "/" + (tail + more) == a + more;
    var b := Decimal(port) + a;
    assert Decimal(port) + (a + more) == b + more;
    var c := host + (":" + b);
    assert host + (":" + (b + more)) == c + more;
    var d := password + ("@" + c);
    assert password + ("@" + (c + more)) == d + more;
    var e := user + (":" + d);
    assert user + (":" + (d + more)) == e + more;
    assert scheme + ("://" + (e + more)) == (scheme + ("://" + e)) + more;
  }

  /** The pieces of a printed URL, whatever was printed. */
  lemma PrintedPieces(scheme: string, user: string, password: string, host: string, port: int, tail: string)
    requires scheme != "" && Clean(scheme)
    ensures Pieces(Print(scheme, user, password, host, port, tail))
      == [scheme] + (Pieces(user) + (Pieces(password) + (Pieces(host) + ([Decimal(port)] + Pieces(tail)))))
  {
    hide Pieces, Decimal;
    var end := Decimal(port) + ("/" + tail);
    var a := host + (":" + end);
    var b := password + ("@" + a);
    var c := user + (":" + b);
    PiecesConcat(Decimal(port), '/', tail);
    PieceAlone(Decimal(port));
    PiecesConcat(host, ':', end);
    PiecesConcat(password, '@', a);
    PiecesConcat(user, ':', b);
    assert "://" + c == ":" + ("/" + ("/" + c));
    PiecesConcat(scheme, ':', "/" + ("/" + c));
    PieceAlone(scheme);
    PiecesOfSeps(c);
  }

  lemma PiecesOfSeps(s: string)
    ensures Pieces("/" + ("/" + s)) == Pieces(s)
  {
    assert ("/" + ("/" + s))[1..] == "/" + s && ("/" + s)[1..] == s;
  }

  /** A printed URL starts with its scheme, and ends in a separator iff what it ends with is empty or does so. */
  lemma StartAndEnd(scheme: string, user: string, password: string, host: string, port: int, tail: string)
    requires scheme != "" && Clean(scheme)
    ensures var url := Print(scheme, user, password, host, port, tail);
      url != "" && !IsSep(url[0]) && (EndsInSep(url) <==> tail == "" || EndsInSep(tail))
  {
    hide Decimal;
    var url := Print(scheme, user, password, host, port, "");
    PrintAppend(scheme, user, password, host, port, "", tail);
    assert "" + tail == tail;
    assert url[|url| - 1] == '/';
  }

  /** The fields of a printed URL, when user and password are clean and not empty and the last part is clean. */
  lemma PrintedFields(scheme: string, user: string, password: string, host: string, port: int, tail: string)
    requires scheme != "" && Clean(scheme)
    requires user != "" && Clean(user) && password != "" && Clean(password) && Clean(tail)
    ensures Fields(Print(scheme, user, password, host, port, tail))
      == [scheme, user, password] + Pieces(host) + [Decimal(port), tail]
  {
    hide Fields, Pieces, Print, Decimal;
    PrintedPieces(scheme, user, password, host, port, tail);
    StartAndEnd(scheme, user, password, host, port, tail);
    FieldsArePieces(Print(scheme, user, password, host, port, tail));
    PieceAlone(user);
    PieceAlone(password);
    if tail == "" {
      FieldsOfNothing();
    } else {
      PieceAlone(tail);
    }
  }

  /** Host and port, which the parser passes over, are in the URL as well. */
  lemma PrintedAddress(scheme: string, user: string, password: string, host: string, port: int, tail: string)
    requires scheme != "" && Clean(scheme) && GoodLogin(user, password, host) && Clean(tail)
    ensures var f := Fields(Print(scheme, user, password, host, port, tail));
      |f| == 6 && f[0] == scheme && f[3] == Pieces(host)[0] && ValueOf(f[4]) == port
  {
    hide Fields, Pieces, Decimal;
    PrintedFields(scheme, user, password, host, port, tail);
    DecimalReadsBack(port);
  }

  /* ---------- round trips ---------- */

  /** What a caller can check: user and password are clean and not empty, and the host has exactly one piece. */
  predicate GoodLogin(user: string, password: string, host: string) {
    user != "" && Clean(user) && password != "" && Clean(password) && |Pieces(host)| == 1
  }

  lemma OptionsAreValid()
    ensures Clean("?" + OPTIONS) && ValidQuery(OPTIONS) && OPTIONS != ""
  {
    assert Plain("charset=utf8");
    assert Plain("&parseTime=true");
    assert Plain("&interpolateParams=true");
  }

  /** Neither separators nor anything that `url.ParseQuery` looks at. */
  predicate Plain(s: string) {
    forall i | 0 <= i < |s| :: !IsSep(s[i]) && s[i] != ';' && s[i] != '%'
  }

  lemma {:induction false} BeforeQueryConcat(a: string, b: string)
    requires '?' !in a && (b == "" || b[0] == '?')
    ensures BeforeQuery(a + b) == |a|
  {
    if a == "" {
      assert a + b == b;
    } else {
      assert (a + b)[1..] == a[1..] + b;
      BeforeQueryConcat(a[1..], b);
    }
  }

  /** What comes back from any URL is clean, and user and password are not empty. */
  lemma ParsedIsClean(src: string)
    requires Parse(src).Ok?
    ensures var c := Parse(src).config;
      && c.username != "" && Clean(c.username) && c.password != "" && Clean(c.password)
      && Clean(c.database) && '?' !in c.database
  {
    var dburl := Fields(src)[5];
    assert dburl[..|dburl|] == dburl;
  }

  /** Parsing six known fields. */
  lemma ParseFields(
      src: string, scheme: string, user: string, password: string, host: seq<string>, port: string, tail: string)
    requires Fields(src) == [scheme, user, password] + host + [port, tail]
    ensures src != ""
    ensures |host| != 1 ==> Parse(src) == Err
    ensures |host| == 1 ==> |Fields(src)| == 6
    ensures |host| == 1 ==> Fields(src)[1] == user && Fields(src)[2] == password && Fields(src)[5] == tail
  {
    FieldsOfNothing();
  }

  /**
    Parsing a printed MySQL URL returns the same database, user and password
    exactly when these are free of separators and not empty, the database is
    free of question marks and the host is one piece.
   */
  lemma MysqlRoundTripIff(user: string, password: string, host: string, port: int, database: string)
    ensures Parse(MysqlUrl(user, password, host, port, database)) == Ok(DBConfig(database, user, password))
      <==> GoodLogin(user, password, host) && database != "" && Clean(database) && '?' !in database
  {
    hide Fields, Pieces, ValidQuery, OPTIONS, Print;
    var tail := database + ("?" + OPTIONS);
    var url := Print("mysql+pymysql", user, password, host, port, tail);
    OptionsAreValid();
    if Parse(url) == Ok(DBConfig(database, user, password)) {
      ParsedIsClean(url);
    }
    if user != "" && Clean(user) && password != "" && Clean(password) && Clean(database) && '?' !in database {
      PrintedFields("mysql+pymysql", user, password, host, port, tail);
      ParseFields(url, "mysql+pymysql", user, password, Pieces(host), Decimal(port), tail);
      BeforeQueryConcat(database, "?" + OPTIONS);
      assert tail[..|database|] == database && tail[|database| + 1..] == OPTIONS;
    }
  }

  /** The same for Dameng, whose URL carries no options: here an empty database name comes back too. */
  lemma DamengRoundTripIff(user: string, password: string, host: string, port: int, database: string)
    ensures Parse(DamengUrl(user, password, host, port, database)) == Ok(DBConfig(database, user, password))
      <==> GoodLogin(user, password, host) && Clean(database) && '?' !in database
  {
    hide Fields, Pieces, ValidQuery, Print;
    var url := Print("dm", user, password, host, port, database);
    if Parse(url) == Ok(DBConfig(database, user, password)) {
      ParsedIsClean(url);
    }
    if user != "" && Clean(user) && password != "" && Clean(password) && Clean(database) && '?' !in database {
      PrintedFields("dm", user, password, host, port, database);
      ParseFields(url, "dm", user, password, Pieces(host), Decimal(port), database);
      BeforeQueryConcat(database, "");
      assert database + "" == database;
    }
  }

  lemma {:induction false} PieceStops(s: string, i: nat)
    requires i < |s| && IsSep(s[i])
    ensures Piece(s) <= i
  {
    if i > 0 && !IsSep(s[0]) {
      PieceStops(s[1..], i - 1);
    }
  }

  /** A bracketed IPv6 address has at least two pieces, so its URL never round-trips. */
  lemma Ipv6NeverRoundTrips(user: string, password: string, host: string, port: int, database: string)
    requires ':' in host
    ensures !GoodLogin(user, password, FormatHost(host, true))
    ensures var h, config := FormatHost(host, true), Ok(DBConfig(database, user, password));
      && Parse(MysqlUrl(user, password, h, port, database)) != config
      && Parse(DamengUrl(user, password, h, port, database)) != config
  {
    hide Parse, MysqlUrl, DamengUrl;
    var h := FormatHost(host, true);
    var i :| 0 <= i < |host| && host[i] == ':';
    assert h[i + 1] == ':';
    var k := Piece(h);
    PieceStops(h, i + 1);
    var rest := h[k..];
    assert rest[|rest| - 1] == ']';
    MysqlRoundTripIff(user, password, h, port, database);
    DamengRoundTripIff(user, password, h, port, database);
  }

  /** The last piece of a string that ends in one. */
  function LastPiece(s: string): string
    requires s != "" && !EndsInSep(s)
  {
    var p := Pieces(s);
    p[|p| - 1]
  }

  /**
    The parser of a printed Dameng URL panics exactly when the four parts that a
    caller gives make up four pieces, the last of which ends the database name and has
    one question mark, as its last character and not its first.
   */
  lemma DamengPanicsIff(user: string, password: string, host: string, port: int, database: string)
    ensures Parse(DamengUrl(user, password, host, port, database)) == Panic
      <==> && |Pieces(user)| + |Pieces(password)| + |Pieces(host)| + |Pieces(database)| == 4
           && database != "" && !EndsInSep(database)
           && 0 < BeforeQuery(LastPiece(database)) == |LastPiece(database)| - 1
  {
    hide Fields, Pieces, ValidQuery, Decimal, BeforeQuery;
    var url := Print("dm", user, password, host, port, database);
    PrintedPieces("dm", user, password, host, port, database);
    StartAndEnd("dm", user, password, host, port, database);
    FieldsArePieces(url);
    assert BeforeQuery("") == 0 by {
      NoQuery();
    }
    var f := Fields(url);
    if !EndsInSep(url) {
      assert f[|f| - 1] == LastPiece(database);
    } else {
      assert f[|f| - 1] == "";
    }
  }

  lemma NoQuery()
    ensures BeforeQuery("") == 0
  {
  }

  /** For a proper login and a database name without separators, that is a name whose only question mark ends it. */
  lemma CleanDamengPanicsIff(user: string, password: string, host: string, port: int, database: string)
    requires GoodLogin(user, password, host) && Clean(database)
    ensures Parse(DamengUrl(user, password, host, port, database)) == Panic
      <==> 0 < BeforeQuery(database) == |database| - 1
  {
    hide Pieces, Parse, DamengUrl;
    DamengPanicsIff(user, password, host, port, database);
    PieceAlone(user);
    PieceAlone(password);
    if database != "" {
      PieceAlone(database);
    }
  }

  predicate EndsWith(s: string, end: string) {
    |s| >= |end| && s[|s| - |end|..] == end
  }

  /** The last field keeps a clean end of the string whole. */
  lemma {:induction false} LastFieldEndsWith(a: string, b: string)
    requires b != "" && Clean(b)
    ensures EndsWith(Fields(a + b)[|Fields(a + b)| - 1], b)
    decreases |a|
  {
    hide Fields;
    var s := a + b;
    var k := Piece(s);
    if k == |s| {
      assert s[..k] == s;
      FieldsOfClean(s);
    } else {
      SeparatorIsEarly(a, b, k);
      var c := a[k + 1..];
      assert s == s[..k] + ([s[k]] + (c + b));
      FieldsAfter(s[..k], s[k], c + b);
      DropSepsConcat(c, b);
      assert DropSeps(b) == b && "" + b == b;
      LastFieldEndsWith(DropSeps(c), b);
    }
  }

  lemma SeparatorIsEarly(a: string, b: string, k: nat)
    requires Clean(b) && k < |a + b| && IsSep((a + b)[k])
    ensures k < |a|
  {
  }

  lemma QueryStartsByThen(s: string, i: nat)
    requires i < |s| && s[i] == '?'
    ensures BeforeQuery(s) <= i
  {
    if i > 0 && s[0] != '?' {
      QueryStartsByThen(s[1..], i - 1);
    }
  }

  lemma QueryIsNotEmpty(field: string, end: string)
    requires EndsWith(field, end) && |end| >= 2 && end[0] == '?'
    ensures BeforeQuery(field) < |field| - 1
  {
    var i := |field| - |end|;
    assert field[i] == field[i..][0];
    QueryStartsByThen(field, i);
  }

  /** A printed MySQL URL carries options after its question mark, so its parser never panics, whatever was printed. */
  lemma MysqlNeverPanics(user: string, password: string, host: string, port: int, database: string)
    ensures Parse(MysqlUrl(user, password, host, port, database)) != Panic
  {
    var end := "?" + OPTIONS;
    OptionsAreValid();
    hide Fields, OPTIONS, ValidQuery, MysqlUrl, Clean, BeforeQuery, EndsWith;
    var start := MysqlStart(user, password, host, port, database);
    LastFieldEndsWith(start, end);
    var f := Fields(start + end);
    QueryIsNotEmpty(f[|f| - 1], end);
  }

  /** What precedes the options in a printed MySQL URL. */
  lemma MysqlStart(user: string, password: string, host: string, port: int, database: string) returns (start: string)
    ensures MysqlUrl(user, password, host, port, database) == start + ("?" + OPTIONS)
  {
    hide Decimal, OPTIONS;
    start := Print("mysql+pymysql", user, password, host, port, database);
    PrintAppend("mysql+pymysql", user, password, host, port, database, "?" + OPTIONS);
  }

  /** The options with which every MySQL connection is opened. */
  lemma MysqlOptions(user: string, password: string, host: string, port: int, database: string)
    ensures EndsWith(MysqlUrl(user, password, host, port, database),
                     "?" + ("charset=utf8" + ("&parseTime=true" + "&interpolateParams=true")))
  {
    var end := "?" + ("charset=utf8" + ("&parseTime=true" + "&interpolateParams=true"));
    assert end == "?" + OPTIONS;
    hide MysqlUrl, OPTIONS;
    var start := MysqlStart(user, password, host, port, database);
    assert (start + end)[|start|..] == end;
  }

  /** A query after the database name is passed over if it is one, and an error if it is not. */
  lemma DamengQuery(user: string, password: string, host: string, port: int, database: string, query: string)
    requires GoodLogin(user, password, host) && database != "" && Clean(database) && '?' !in database
    requires query != "" && Clean(query)
    ensures Parse(DamengUrl(user, password, host, port, database + ("?" + query)))
         == if ValidQuery(query) then Ok(DBConfig(database, user, password)) else Err
  {
    hide Fields, Pieces, ValidQuery, Print;
    var tail := database + ("?" + query);
    var url := Print("dm", user, password, host, port, tail);
    PrintedFields("dm", user, password, host, port, tail);
    ParseFields(url, "dm", user, password, Pieces(host), Decimal(port), tail);
    BeforeQueryConcat(database, "?" + query);
    assert tail[..|database|] == database && tail[|database| + 1..] == query;
  }
}
