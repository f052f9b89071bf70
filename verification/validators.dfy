/** Input validators: each runs its checks in a fixed order and reports
    the first that fails, as a pair (valid, message). Regular-expression
    classes are written out as character predicates; Python's `$` also
    matches just before a single trailing newline, which the username and
    host patterns therefore accept. */
module Validators {
  import opened Models
  import Helpers

  /** The `(bool, Optional[str])` pair every validator returns. */
  datatype Verdict = Verdict(ok: bool, error: Option<string>)

  const Accept := Verdict(true, None)

  function Reject(message: string): (v: Verdict)
    ensures !v.ok && v.error == Some(message)
  {
    Verdict(false, Some(message))
  }

  predicate IsAsciiDigit(c: char) { '0' <= c <= '9' }
  predicate IsAsciiLetter(c: char) { 'a' <= c <= 'z' || 'A' <= c <= 'Z' }

  const SpecialChars: string := "!@#$%^&*(),.?\":{}|<>"

  predicate HasDigit(s: string) { exists i :: 0 <= i < |s| && IsAsciiDigit(s[i]) }
  predicate HasLetter(s: string) { exists i :: 0 <= i < |s| && IsAsciiLetter(s[i]) }
  predicate HasSpecial(s: string) { exists i :: 0 <= i < |s| && s[i] in SpecialChars }

  // ---------------------------------------------------------------------
  // validate_password_strength

  const PasswordTooShort := "密码长度至少8位"
  const PasswordTooLong := "密码长度不能超过128位"
  const PasswordNoDigit := "密码必须包含至少一个数字"
  const PasswordNoLetter := "密码必须包含至少一个字母"
  const PasswordNoSpecial := "密码必须包含至少一个特殊字符"

  /** A password that passes every check of `validate_password_strength`. */
  predicate StrongPassword(p: string) {
    8 <= |p| <= 128 && HasDigit(p) && HasLetter(p) && HasSpecial(p)
  }

  /** `validate_password_strength`: the first failing check, in the order
      too short, too long, no digit, no letter, no special character. */
  function ValidatePasswordStrength(p: string): (v: Verdict)
    ensures v.ok <==> StrongPassword(p)
    ensures v.ok <==> v.error.None?
    ensures |p| < 8 ==> v.error == Some(PasswordTooShort)
    ensures 8 <= |p| && |p| > 128 ==> v.error == Some(PasswordTooLong)
    ensures 8 <= |p| <= 128 && !HasDigit(p) ==> v.error == Some(PasswordNoDigit)
    ensures 8 <= |p| <= 128 && HasDigit(p) && !HasLetter(p) ==> v.error == Some(PasswordNoLetter)
    ensures 8 <= |p| <= 128 && HasDigit(p) && HasLetter(p) && !HasSpecial(p) ==> v.error == Some(PasswordNoSpecial)
  {
    if |p| < 8 then Reject(PasswordTooShort)
    else if |p| > 128 then Reject(PasswordTooLong)
    else if !HasDigit(p) then Reject(PasswordNoDigit)
    else if !HasLetter(p) then Reject(PasswordNoLetter)
    else if !HasSpecial(p) then Reject(PasswordNoSpecial)
    else Accept
  }

  // ---------------------------------------------------------------------
  // Full-match patterns with Python's `$`

  /** What `^[class]+$` matches the class against: the string without a
      single trailing newline, which `$` lets through. */
  function PatternBody(s: string): (b: string)
    ensures b == s || (|s| > 0 && s[|s| - 1] == '\n' && b == s[..|s| - 1])
  {
    if |s| > 0 && s[|s| - 1] == '\n' then s[..|s| - 1] else s
  }

  /** `re.match(r'^[a-zA-Z0-9_-]+$', s)`. */
  predicate UsernamePattern(s: string) {
    var b := PatternBody(s);
    |b| > 0 && forall i :: 0 <= i < |b| ==> UsernameChar(b[i])
  }

  /** `re.match(r'^[a-zA-Z0-9.-]+$', s)`. */
  predicate HostPattern(s: string) {
    var b := PatternBody(s);
    |b| > 0 && forall i :: 0 <= i < |b| ==> HostChar(b[i])
  }

  predicate UsernameChar(c: char) { IsAsciiLetter(c) || IsAsciiDigit(c) || c == '_' || c == '-' }
  predicate HostChar(c: char) { IsAsciiLetter(c) || IsAsciiDigit(c) || c == '.' || c == '-' }

  // ---------------------------------------------------------------------
  // validate_username

  const UsernameTooShort := "用户名长度至少3位"
  const UsernameTooLong := "用户名长度不能超过50位"
  const UsernameBadChars := "用户名只能包含字母、数字、下划线和连字符"
  const UsernameLeadingDigit := "用户名不能以数字开头"

  /** `validate_username`: length 3..50, then the character class, then
      a first character that is not a digit. */
  function ValidateUsername(u: string): (v: Verdict)
    ensures v.ok <==> 3 <= |u| <= 50 && UsernamePattern(u) && !IsAsciiDigit(u[0])
    ensures v.ok <==> v.error.None?
    ensures |u| < 3 ==> v.error == Some(UsernameTooShort)
    ensures |u| > 50 ==> v.error == Some(UsernameTooLong)
    ensures 3 <= |u| <= 50 && !UsernamePattern(u) ==> v.error == Some(UsernameBadChars)
    ensures 3 <= |u| <= 50 && UsernamePattern(u) && IsAsciiDigit(u[0]) ==> v.error == Some(UsernameLeadingDigit)
  {
    if |u| < 3 then Reject(UsernameTooShort)
    else if |u| > 50 then Reject(UsernameTooLong)
    else if !UsernamePattern(u) then Reject(UsernameBadChars)
    else if IsAsciiDigit(u[0]) then Reject(UsernameLeadingDigit)
    else Accept
  }

  /** An accepted username consists of allowed characters, except that it
      may end in one newline; and such a newline is indeed accepted. */
  lemma {:induction false} UsernameTrailingNewline(u: string)
    requires ValidateUsername(u).ok
    ensures forall i :: 0 <= i < |u| - 1 ==> UsernameChar(u[i])
    ensures UsernameChar(u[|u| - 1]) || u[|u| - 1] == '\n'
    ensures |u| < 50 && u[|u| - 1] != '\n' ==> ValidateUsername(u + "\n").ok
  {
    var body := PatternBody(u);
    forall i | 0 <= i < |u| - 1
      ensures UsernameChar(u[i])
    {
      assert u[i] == body[i];
    }
    if u[|u| - 1] != '\n' {
      assert UsernameChar(body[|u| - 1]);
      if |u| < 50 {
        var w := u + "\n";
        assert w[..|w| - 1] == u;
      }
    }
  }

  // ---------------------------------------------------------------------
  // validate_task_title

  const TitleEmpty := "任务标题不能为空"
  const TitleTooLong := "任务标题长度不能超过200字符"

  predicate AllSpace(s: string) { forall i :: 0 <= i < |s| ==> Helpers.IsSpace(s[i]) }

  /** `validate_task_title`: empty or blank first, then over 200 characters. */
  function ValidateTaskTitle(title: string): (v: Verdict)
    ensures v.ok <==> !AllSpace(title) && |title| <= 200
    ensures v.ok <==> v.error.None?
    ensures AllSpace(title) ==> v.error == Some(TitleEmpty)
    ensures !AllSpace(title) && |title| > 200 ==> v.error == Some(TitleTooLong)
  {
    if title == [] || Helpers.Strip(title) == [] then
      StripEmptyIffBlank(title);
      Reject(TitleEmpty)
    else if |title| > 200 then
      StripEmptyIffBlank(title);
      Reject(TitleTooLong)
    else
      StripEmptyIffBlank(title);
      Accept
  }

  /** `s.strip()` is empty exactly when `s` is all whitespace. */
  /** The ASCII information separators count as blank, as they do for
      Python's `strip`. */
  lemma SeparatorTitleIsBlank(c: char)
    requires '\U{1C}' <= c <= '\U{1F}'
    ensures ValidateTaskTitle([c]) == Reject(TitleEmpty)
  {
  }

  lemma StripEmptyIffBlank(s: string)
    ensures Helpers.Strip(s) == [] <==> AllSpace(s)
  {
    var r := Helpers.Strip(s);
    var i, j :| 0 <= i <= j <= |s| && r == s[i..j]
                && (forall k :: 0 <= k < i ==> Helpers.IsSpace(s[k]))
                && (forall k :: j <= k < |s| ==> Helpers.IsSpace(s[k]));
    if r == [] {
      forall k | 0 <= k < |s| ensures Helpers.IsSpace(s[k]) {
        assert k < i || j <= k;
      }
    } else {
      assert s[i] == r[0];
    }
  }

  // ---------------------------------------------------------------------
  // validate_gpu_server_config

  /** A configuration value as Python sees it: the validator only cares
      whether it is a string, an int (a bool is an int: True is 1) or
      something else. */
  datatype ConfigValue = Str(s: string) | Int(i: int) | Bool(b: bool) | OtherValue

  const HostInvalid := "主机地址格式无效"
  const PortInvalid := "端口号必须在1-65535之间"
  /** What `re.match` raises for a host that is not a string. */
  const HostNotString := "expected string or bytes-like object"

  function MissingField(field: string): string {
    "缺少必需字段: " + field
  }

  /** The integer value of an `isinstance(v, int)` value. */
  function AsInt(v: ConfigValue): Option<int> {
    match v
    case Int(i) => Some(i)
    case Bool(b) => Some(if b then 1 else 0)
    case _ => None
  }

  /** `validate_gpu_server_config`: the first missing field among host,
      port and username; then the host pattern (raising for a non-string
      host); then the port range. */
  function ValidateGpuServerConfig(config: map<string, ConfigValue>): (r: Outcome<Verdict>)
    ensures "host" !in config ==> r == Returned(Reject(MissingField("host")))
    ensures "host" in config && "port" !in config ==> r == Returned(Reject(MissingField("port")))
    ensures "host" in config && "port" in config && "username" !in config ==>
              r == Returned(Reject(MissingField("username")))
    ensures r.Raised? <==> "host" in config && "port" in config && "username" in config && !config["host"].Str?
    ensures "host" in config && "port" in config && "username" in config
              && config["host"].Str? && !HostPattern(config["host"].s) ==>
              r == Returned(Reject(HostInvalid))
    ensures "host" in config && "port" in config && "username" in config
              && config["host"].Str? && HostPattern(config["host"].s)
              && !(AsInt(config["port"]).Some? && 1 <= AsInt(config["port"]).value <= 65535) ==>
              r == Returned(Reject(PortInvalid))
    ensures r == Returned(Accept) <==>
              && "host" in config && "port" in config && "username" in config
              && config["host"].Str? && HostPattern(config["host"].s)
              && AsInt(config["port"]).Some? && 1 <= AsInt(config["port"]).value <= 65535
  {
    if "host" !in config then Returned(Reject(MissingField("host")))
    else if "port" !in config then Returned(Reject(MissingField("port")))
    else if "username" !in config then Returned(Reject(MissingField("username")))
    else if !config["host"].Str? then Raised(HostNotString)
    else if !HostPattern(config["host"].s) then Returned(Reject(HostInvalid))
    else
      var port := AsInt(config["port"]);
      if port.None? || port.value < 1 || port.value > 65535 then Returned(Reject(PortInvalid))
      else Returned(Accept)
  }

  /** Because a bool is an int, `True` passes as port 1. */
  lemma BoolPortAccepted()
    ensures ValidateGpuServerConfig(map["host" := Str("gpu-1"), "port" := Bool(true), "username" := Str("root")])
              == Returned(Accept)
  {
    var h := "gpu-1";
    assert HostPattern(h) by {
      assert h[|h| - 1] != '\n';
    }
  }

  // ---------------------------------------------------------------------
  // sanitize_input

  predicate Dangerous(c: char) { c == '<' || c == '>' || c == '"' || c == '\'' }

  /** `re.sub(r'[<>"\']', '', text)`. */
  function RemoveDangerous(s: string): (r: string)
    ensures |r| <= |s|
    ensures forall i :: 0 <= i < |r| ==> !Dangerous(r[i])
    ensures forall i :: 0 <= i < |s| && !Dangerous(s[i]) ==> s[i] in r
  {
    if s == [] then []
    else if Dangerous(s[0]) then RemoveDangerous(s[1..])
    else [s[0]] + RemoveDangerous(s[1..])
  }

  /** The substitution works left to right: it distributes over
      concatenation, so the kept characters stay in order and keep their
      count. */
  lemma {:induction false} RemoveDangerousAppend(a: string, b: string)
    ensures RemoveDangerous(a + b) == RemoveDangerous(a) + RemoveDangerous(b)
    decreases |a|
  {
    if a == [] {
      assert a + b == b;
    } else {
      assert (a + b)[0] == a[0];
      assert (a + b)[1..] == a[1..] + b;
      RemoveDangerousAppend(a[1..], b);
    }
  }

  /** A single character is dropped exactly when it is dangerous. */
  lemma RemoveDangerousSingle(c: char)
    ensures RemoveDangerous([c]) == if Dangerous(c) then [] else [c]
  {
    assert [c][1..] == [];
  }

  /** Text without a dangerous character comes back unchanged. */
  lemma {:induction false} RemoveDangerousClean(s: string)
    requires forall i :: 0 <= i < |s| ==> !Dangerous(s[i])
    ensures RemoveDangerous(s) == s
    decreases |s|
  {
    if s != [] {
      RemoveDangerousClean(s[1..]);
    }
  }

  /** `sanitize_input`: empty text gives ""; otherwise the text is
      stripped, cut to its first `maxLength` characters (a Python slice,
      so a negative length counts from the end) and cleared of dangerous
      characters. */
  function SanitizeInput(text: string, maxLength: int): (r: string)
    ensures text == [] ==> r == []
    ensures text != [] ==> r == RemoveDangerous(Helpers.PyPrefix(Helpers.Strip(text), maxLength))
    ensures forall i :: 0 <= i < |r| ==> !Dangerous(r[i])
    ensures maxLength >= 0 ==> |r| <= maxLength
    ensures |r| <= |text|
  {
    if text == [] then ""
    else
      var stripped := Helpers.Strip(text);
      var cut := if |stripped| > maxLength then Helpers.PyPrefix(stripped, maxLength) else stripped;
      assert |stripped| <= maxLength ==> Helpers.PyPrefix(stripped, maxLength) == stripped by {
        if |stripped| <= maxLength {
          assert stripped[0..|stripped|] == stripped;
        }
      }
      RemoveDangerous(cut)
  }

  /** Text that is already clean — no dangerous character, no surrounding
      whitespace, within the length limit — passes through unchanged. */
  lemma SanitizeKeepsCleanText(text: string, maxLength: int)
    requires |text| <= maxLength
    requires text != [] ==> !Helpers.IsSpace(text[0]) && !Helpers.IsSpace(text[|text| - 1])
    requires forall i :: 0 <= i < |text| ==> !Dangerous(text[i])
    ensures SanitizeInput(text, maxLength) == text
  {
    if text != [] {
      var r := Helpers.Strip(text);
      var i, j :| 0 <= i <= j <= |text| && r == text[i..j]
                  && (forall k :: 0 <= k < i ==> Helpers.IsSpace(text[k]))
                  && (forall k :: j <= k < |text| ==> Helpers.IsSpace(text[k]));
      assert i == 0 && j == |text|;
      assert r == text;
      assert Helpers.PyPrefix(text, maxLength) == text[0..|text|] == text;
      RemoveDangerousClean(text);
    }
  }
}
