/** The format rules of the validator.  Each JavaScript regular expression of
    the catalog (none has a flag, so `.` excludes line terminators, `$` means
    end of input and `\d` is ASCII) is written out as a predicate on the
    value.  The predicates quantify over the positions that the regular
    expression's backtracking would try. */
module Formats {
  import opened JsText

  /** One constructor per regular expression of the catalog. */
  datatype Format =
    | PostgresUrl  // ^postgresql://.+:.+@.+:\d+/.+$
    | MongoUri     // ^mongodb(\+srv)?://.+
    | RedisUrl     // ^rediss?://.+
    | LongRun      // .{32,}
    | HexKey       // ^[0-9a-fA-F]{64}$
    | Email        // ^[^\s@]+@[^\s@]+\.[^\s@]+$
    | HttpUrl      // ^https?://.+
    | Digits       // ^\d+$

  predicate IsDigit(c: char) {
    '0' <= c <= '9'
  }

  predicate IsHexDigit(c: char) {
    IsDigit(c) || 'a' <= c <= 'f' || 'A' <= c <= 'F'
  }

  predicate AllDigits(s: string) {
    forall i :: 0 <= i < |s| ==> IsDigit(s[i])
  }

  /** `^prefix.+` without an end anchor: the literal prefix followed by at
      least one character that the dot matches. */
  predicate StartsThenAny(s: string, prefix: string) {
    |prefix| < |s| && s[..|prefix|] == prefix && !IsLineTerminator(s[|prefix|])
  }

  /** The slice `s[i..j]` is free of line terminators and spans at least `n`
      UTF-16 code units. */
  predicate RunAt(s: string, i: int, j: int, n: nat) {
    0 <= i <= j <= |s| && NoLineTerminator(s[i..j]) && Utf16Length(s[i..j]) >= n
  }

  /** `.{n,}` without anchors: somewhere in `s` there are `n` consecutive code
      units none of which is a line terminator. */
  predicate HasRun(s: string, n: nat) {
    exists i, j | 0 <= i <= j <= |s| :: RunAt(s, i, j, n)
  }

  /** The separators of `postgresql://U:P@H:PORT/DB` sit at `i` (':'),
      `j` ('@'), `k` (':') and `l` ('/'); U, P, H and DB are non-empty and
      PORT is a non-empty run of digits. */
  predicate PostgresShape(s: string, i: int, j: int, k: int, l: int) {
    && 13 < i && i + 1 < j && j + 1 < k && k + 1 < l && l + 1 < |s|
    && s[i] == ':' && s[j] == '@' && s[k] == ':' && s[l] == '/'
    && AllDigits(s[k + 1..l])
  }

  predicate IsPostgresUrl(s: string) {
    && |s| > 13 && s[..13] == "postgresql://"
    && NoLineTerminator(s)
    && exists i, j, k, l | 0 <= i < j < k < l < |s| :: PostgresShape(s, i, j, k, l)
  }

  /** `[^\s@]` */
  predicate IsEmailChar(c: char) {
    !IsWhiteSpace(c) && c != '@'
  }

  predicate AllEmailChars(s: string) {
    forall i :: 0 <= i < |s| ==> IsEmailChar(s[i])
  }

  /** `LOCAL@DOMAIN.TOP` with the '@' at `i` and the '.' at `j`. */
  predicate EmailShape(s: string, i: int, j: int) {
    && 0 < i && i + 1 < j && j + 1 < |s|
    && s[i] == '@' && s[j] == '.'
    && AllEmailChars(s[..i]) && AllEmailChars(s[i + 1..j]) && AllEmailChars(s[j + 1..])
  }

  predicate IsEmail(s: string) {
    exists i, j | 0 <= i < j < |s| :: EmailShape(s, i, j)
  }

  /** `pattern.test(value)` */
  predicate Matches(f: Format, s: string) {
    match f
    case PostgresUrl => IsPostgresUrl(s)
    case MongoUri => StartsThenAny(s, "mongodb://") || StartsThenAny(s, "mongodb+srv://")
    case RedisUrl => StartsThenAny(s, "redis://") || StartsThenAny(s, "rediss://")
    case LongRun => HasRun(s, 32)
    case HexKey => |s| == 64 && forall i :: 0 <= i < |s| ==> IsHexDigit(s[i])
    case Email => IsEmail(s)
    case HttpUrl => StartsThenAny(s, "http://") || StartsThenAny(s, "https://")
    case Digits => |s| > 0 && AllDigits(s)
  }

  /** On a single-line value, `.{32,}` means "at least 32 UTF-16 code
      units long". */
  lemma LongRunSingleLine(s: string)
    requires NoLineTerminator(s)
    ensures Matches(LongRun, s) <==> Utf16Length(s) >= 32
  {
    if Matches(LongRun, s) {
      var i, j :| 0 <= i <= j <= |s| && RunAt(s, i, j, 32);
      Utf16LengthSlice(s, i, j);
    }
    if Utf16Length(s) >= 32 {
      assert s[0..|s|] == s;
      assert RunAt(s, 0, |s|, 32);
    }
  }

  lemma TerminatorBreaksRun(s: string, i: int, j: int, k: int)
    requires 0 <= i <= k < j <= |s| && NoLineTerminator(s[i..j])
    ensures !IsLineTerminator(s[k])
  {
    assert s[i..j][k - i] == s[k];
  }

  /** One line-terminator-free slice of `a + "\n" + b` lies inside `a` or
      inside `b`. */
  lemma BrokenLineSlice(a: string, b: string, i: int, j: int)
    requires Utf16Length(a) < 32 && Utf16Length(b) < 32
    requires 0 <= i <= j <= |a + "\n" + b| && NoLineTerminator((a + "\n" + b)[i..j])
    ensures Utf16Length((a + "\n" + b)[i..j]) < 32
  {
    var s := a + "\n" + b;
    if j <= |a| {
      assert s[i..j] == a[i..j];
      Utf16LengthSlice(a, i, j);
    } else {
      assert s[|a|] == '\n';
      if i <= |a| {
        TerminatorBreaksRun(s, i, j, |a|);
        assert false;
      }
      assert s[i..j] == b[i - |a| - 1..j - |a| - 1];
      Utf16LengthSlice(b, i - |a| - 1, j - |a| - 1);
    }
  }

  /** A line break resets the run: a value made of two parts, each shorter
      than 32 code units, around a line feed fails `.{32,}` however long it
      is in total. */
  lemma LongRunBrokenLine(a: string, b: string)
    requires Utf16Length(a) < 32 && Utf16Length(b) < 32
    ensures !Matches(LongRun, a + "\n" + b)
  {
    var s := a + "\n" + b;
    forall i, j | 0 <= i <= j <= |s| && NoLineTerminator(s[i..j])
      ensures Utf16Length(s[i..j]) < 32
    {
      BrokenLineSlice(a, b, i, j);
    }
  }

  lemma NoLineTerminatorAppend(a: string, b: string)
    requires NoLineTerminator(a) && NoLineTerminator(b)
    ensures NoLineTerminator(a + b)
  {
    forall i | 0 <= i < |a + b|
      ensures !IsLineTerminator((a + b)[i])
    {
      if i >= |a| {
        assert (a + b)[i] == b[i - |a|];
      }
    }
  }

  /** Every connection string `postgresql://U:P@H:PORT/DB` whose parts are
      non-empty and single-line, with PORT made of digits, satisfies the
      DATABASE_URL rule. */
  lemma PostgresAccepts(user: string, pass: string, host: string, port: string, db: string)
    requires |user| > 0 && |pass| > 0 && |host| > 0 && |port| > 0 && |db| > 0
    requires NoLineTerminator(user) && NoLineTerminator(pass) && NoLineTerminator(host)
    requires NoLineTerminator(db) && AllDigits(port)
    ensures Matches(PostgresUrl,
      "postgresql://" + user + ":" + pass + "@" + host + ":" + port + "/" + db)
  {
    var scheme := "postgresql://";
    var s1 := scheme + user + ":";
    var s2 := s1 + pass + "@";
    var s3 := s2 + host + ":";
    var s4 := s3 + port + "/";
    var s := s4 + db;
    assert s == "postgresql://" + user + ":" + pass + "@" + host + ":" + port + "/" + db;
    // Separator positions.
    var i, j, k, l := |s1| - 1, |s2| - 1, |s3| - 1, |s4| - 1;
    assert s[..|s4|] == s4;
    assert s[..|s3|] == s3 by { assert s4[..|s3|] == s3; }
    assert s[..|s2|] == s2 by { assert s3[..|s2|] == s2; assert s4[..|s2|] == s2; }
    assert s[..|s1|] == s1 by {
      assert s2[..|s1|] == s1; assert s3[..|s1|] == s1; assert s4[..|s1|] == s1;
    }
    assert s[..13] == scheme by { assert s1[..13] == scheme; }
    assert s[k + 1..l] == port by { assert s4[k + 1..l] == port; }
    assert PostgresShape(s, i, j, k, l);
    // No line terminator anywhere.
    assert NoLineTerminator(scheme) by {
      forall c | c in scheme
        ensures !IsLineTerminator(c)
      {
      }
    }
    assert NoLineTerminator(port);
    NoLineTerminatorAppend(scheme, user);
    NoLineTerminatorAppend(scheme + user, ":");
    NoLineTerminatorAppend(s1, pass);
    NoLineTerminatorAppend(s1 + pass, "@");
    NoLineTerminatorAppend(s2, host);
    NoLineTerminatorAppend(s2 + host, ":");
    NoLineTerminatorAppend(s3, port);
    NoLineTerminatorAppend(s3 + port, "/");
    NoLineTerminatorAppend(s4, db);
  }

  /** Every address `LOCAL@DOMAIN.TOP` whose three parts are non-empty and
      free of white space and '@' satisfies the EMAIL rule. */
  lemma EmailAccepts(local: string, domain: string, top: string)
    requires |local| > 0 && |domain| > 0 && |top| > 0
    requires AllEmailChars(local) && AllEmailChars(domain) && AllEmailChars(top)
    ensures Matches(Email, local + "@" + domain + "." + top)
  {
    var s1 := local + "@";
    var s2 := s1 + domain + ".";
    var s := s2 + top;
    assert s == local + "@" + domain + "." + top;
    var i, j := |local|, |s2| - 1;
    assert s[..|s2|] == s2;
    assert s[..i] == local by { assert s2[..i] == local; }
    assert s[i + 1..j] == domain by { assert s2[i + 1..j] == domain; }
    assert s[j + 1..] == top;
    assert EmailShape(s, i, j);
  }
}
