/** The bodies of the registration, login and e-mail verification requests. */
module AuthDto {
  import opened Validation

  const Username: seq<Rule> := [IsNotEmpty, IsString, MinLength(3), MaxLength(20)]
  const Email: seq<Rule> := [IsNotEmpty, IsEmail]
  const RegisterPassword: seq<Rule> := [IsNotEmpty, IsString, MinLength(6)]
  const NonEmptyString: seq<Rule> := [IsNotEmpty, IsString]

  const RegisterDto: Schema := [("username", Username), ("email", Email), ("password", RegisterPassword)]
  const LoginDto: Schema := [("email", Email), ("password", NonEmptyString)]
  const VerifyEmailDto: Schema := [("token", NonEmptyString)]

  predicate UsernameOk(v: Value) { v.Str? && 3 <= Length(v.s) <= 20 }

  predicate EmailOk(v: Value, oracles: Oracles) { v.Str? && v.s != "" && oracles.isEmail(v.s) }

  predicate PasswordOk(v: Value) { v.Str? && Length(v.s) >= 6 }

  predicate NonEmptyText(v: Value) { v.Str? && v.s != "" }

  lemma UsernameExactly(v: Value, oracles: Oracles)
    ensures ValidProperty(Username, v, oracles) <==> UsernameOk(v)
  {
    if ValidProperty(Username, v, oracles) {
      assert IsOptional !in Username;
      assert Check(Username[2], v, oracles) && Check(Username[3], v, oracles);
    }
  }

  lemma EmailExactly(v: Value, oracles: Oracles)
    ensures ValidProperty(Email, v, oracles) <==> EmailOk(v, oracles)
  {
    if ValidProperty(Email, v, oracles) {
      assert IsOptional !in Email;
      assert Check(Email[0], v, oracles) && Check(Email[1], v, oracles);
    }
  }

  lemma PasswordExactly(v: Value, oracles: Oracles)
    ensures ValidProperty(RegisterPassword, v, oracles) <==> PasswordOk(v)
    ensures ValidProperty(NonEmptyString, v, oracles) <==> NonEmptyText(v)
  {
    if ValidProperty(RegisterPassword, v, oracles) {
      assert IsOptional !in RegisterPassword;
      assert Check(RegisterPassword[0], v, oracles) && Check(RegisterPassword[2], v, oracles);
    }
    if ValidProperty(NonEmptyString, v, oracles) {
      assert IsOptional !in NonEmptyString;
      assert Check(NonEmptyString[0], v, oracles) && Check(NonEmptyString[1], v, oracles);
    }
  }

  /** Registration is accepted exactly when the user name has 3 to 20
      characters, the e-mail address is non-empty and well-formed, and the
      password has at least 6 characters, however long. */
  lemma RegisterAcceptedExactly(body: Body, oracles: Oracles)
    ensures ValidBody(RegisterDto, body, oracles) <==>
      UsernameOk(Get(body, "username")) && EmailOk(Get(body, "email"), oracles) &&
      PasswordOk(Get(body, "password"))
  {
    var schema := RegisterDto;
    UsernameExactly(Get(body, "username"), oracles);
    EmailExactly(Get(body, "email"), oracles);
    PasswordExactly(Get(body, "password"), oracles);
    if ValidBody(schema, body, oracles) {
      assert ValidProperty(schema[0].1, Get(body, schema[0].0), oracles);
      assert ValidProperty(schema[1].1, Get(body, schema[1].0), oracles);
      assert ValidProperty(schema[2].1, Get(body, schema[2].0), oracles);
    } else {
      var i :| 0 <= i < |schema| && !ValidProperty(schema[i].1, Get(body, schema[i].0), oracles);
      assert i == 0 || i == 1 || i == 2;
    }
  }

  /** Login is accepted exactly when the e-mail address is non-empty and
      well-formed and the password is any non-empty string. */
  lemma LoginAcceptedExactly(body: Body, oracles: Oracles)
    ensures ValidBody(LoginDto, body, oracles) <==>
      EmailOk(Get(body, "email"), oracles) && NonEmptyText(Get(body, "password"))
  {
    var schema := LoginDto;
    EmailExactly(Get(body, "email"), oracles);
    PasswordExactly(Get(body, "password"), oracles);
    if ValidBody(schema, body, oracles) {
      assert ValidProperty(schema[0].1, Get(body, schema[0].0), oracles);
      assert ValidProperty(schema[1].1, Get(body, schema[1].0), oracles);
    } else {
      var i :| 0 <= i < |schema| && !ValidProperty(schema[i].1, Get(body, schema[i].0), oracles);
      assert i == 0 || i == 1;
    }
  }

  /** Verification is accepted exactly when the token is a non-empty string. */
  lemma VerifyAcceptedExactly(body: Body, oracles: Oracles)
    ensures ValidBody(VerifyEmailDto, body, oracles) <==> NonEmptyText(Get(body, "token"))
  {
    PasswordExactly(Get(body, "token"), oracles);
    if ValidBody(VerifyEmailDto, body, oracles) {
      assert ValidProperty(VerifyEmailDto[0].1, Get(body, VerifyEmailDto[0].0), oracles);
    }
  }

  /** A one-character password passes login but not registration. */
  lemma LoginHasNoMinimum(email: string, oracles: Oracles)
    requires email != "" && oracles.isEmail(email)
    ensures ValidBody(LoginDto, map["email" := Str(email), "password" := Str("x")], oracles)
    ensures !ValidBody(RegisterDto, map["username" := Str("reader"), "email" := Str(email), "password" := Str("x")], oracles)
  {
    LengthPlain("x");
    LoginAcceptedExactly(map["email" := Str(email), "password" := Str("x")], oracles);
    RegisterAcceptedExactly(map["username" := Str("reader"), "email" := Str(email), "password" := Str("x")], oracles);
  }
}
