/** Python exceptions as values.

    An exception is described by its class name, its message, the error code
    carried by a botocore `ClientError` (empty for other classes) and whether
    its class derives from `Exception` (as opposed to a bare `BaseException`
    such as `KeyboardInterrupt`, which `except Exception` does not catch).
    A message is kept in the parts it is made from; `Render` spells it out. */
module Errors {

  datatype Error = Error(cls: string, message: Message, code: string, isException: bool)

  /** The message of an exception: a text as given, a botocore `ClientError`'s, made
      from the error code, the operation and the argument S3 names as the culprit
      (empty when it names none), or a `ParamValidationError`'s, made from its report. */
  datatype Message =
    | Text(text: string)
    | Failed(code: string, operation: string, argument: string)
    | Invalid(report: Refusal)

  /** What botocore reports before sending a request: a bucket name its bucket-name check
      refuses, or a parameter shorter than the operation's model allows. */
  datatype Refusal = BadBucketName(bucket: string) | TooShort(param: string)

  /** `botocore.exceptions.ClientError` for an S3 error code, raised by `operation`. */
  function ClientError(code: string, operation: string): (e: Error)
    ensures IsClientError(e) && e.code == code && e.isException
  {
    Error("ClientError", Failed(code, operation, ""), code, true)
  }

  /** The `ClientError` with code `InvalidArgument` S3 answers for a bad `argument`. */
  function InvalidArgument(operation: string, argument: string): (e: Error)
    ensures IsClientError(e) && e.code == "InvalidArgument" && e.isException
  {
    Error("ClientError", Failed("InvalidArgument", operation, argument), "InvalidArgument", true)
  }

  /** `botocore.exceptions.ParamValidationError`, raised before any request is sent. */
  function ParamValidationError(report: Refusal): (e: Error)
    ensures !IsClientError(e) && e.isException
  {
    Error("ParamValidationError", Invalid(report), "", true)
  }

  /** A builtin exception class such as `IndexError` or `ValueError` raised with one message. */
  function Builtin(cls: string, message: string): (e: Error)
    requires cls != "ClientError"
    ensures !IsClientError(e) && e.isException && e.cls == cls && e.message == Text(message)
  {
    Error(cls, Text(message), "", true)
  }

  /** `str(e)`: botocore formats a `ClientError` as
      `An error occurred ({code}) when calling the {operation} operation: {message}` and a
      `ParamValidationError` as `Parameter validation failed:` and a new line before the report. */
  function Render(m: Message): string {
    match m
    case Text(t) => t
    case Failed(code, operation, argument) =>
      "An error occurred (" + code + ") when calling the " + operation + " operation: " + ServiceMessage(code, argument)
    case Invalid(report) => "Parameter validation failed:\n" + ReportText(report)
  }

  /** The message S3 sends with each error code this model raises. A `HEAD` response has
      no body, so botocore takes the HTTP reason phrase, `Not Found`. */
  function ServiceMessage(code: string, argument: string): string {
    if code == "404" then "Not Found"
    else if code == "NoSuchBucket" then "The specified bucket does not exist"
    else if code == "BucketNotEmpty" then "The bucket you tried to delete is not empty"
    else if code == "InvalidRequest" then
      "This copy request is illegal because it is trying to copy an object to itself without changing "
      + "the object's metadata, storage class, website redirect location or encryption attributes."
    else if code == "InvalidArgument" && argument == "max-keys" then "Argument maxKeys must be an integer between 0 and 2147483647"
    else if code == "InvalidArgument" && argument == "continuation-token" then "The continuation token provided is incorrect"
    else code
  }

  function ReportText(r: Refusal): string {
    match r
    case BadBucketName(b) =>
      "Invalid bucket name \"" + b + "\": Bucket name must match the regex \"^[a-zA-Z0-9.\\-_]{1,255}$\""
      + " or be an ARN matching the regex \"^arn:(aws).*:(s3|s3-object-lambda):[a-z\\-0-9]*:[0-9]{12}:accesspoint[/:][a-zA-Z0-9\\-.]{1,63}$"
      + "|^arn:(aws).*:s3-outposts:[a-z\\-0-9]+:[0-9]{12}:outpost[/:][a-zA-Z0-9\\-]{1,63}[/:]accesspoint[/:][a-zA-Z0-9\\-]{1,63}$\""
    case TooShort(param) => "Invalid length for parameter " + param + ", value: 0, valid min length: 1"
  }

  predicate IsClientError(e: Error) {
    e.cls == "ClientError"
  }

  /** `isinstance(error, ClientError) and error.response["Error"]["Code"] == code` */
  predicate HasCode(e: Error, code: string) {
    IsClientError(e) && e.code == code
  }

  /** `repr(e)` for an exception raised with a single string argument. */
  function Repr(e: Error): (text: string)
    ensures |text| > |e.cls| && text[..|e.cls|] == e.cls
  {
    e.cls + "(" + Quote(Render(e.message)) + ")"
  }

  /** `repr(s)` for a string: double quotes when `s` holds a single quote and no double
      quote, single quotes otherwise, with the quote, backslashes and line breaks escaped. */
  function Quote(s: string): (text: string)
    ensures |text| >= 2 && text[0] == text[|text| - 1] == QuoteFor(s)
  {
    [QuoteFor(s)] + Escape(s, QuoteFor(s)) + [QuoteFor(s)]
  }

  function QuoteFor(s: string): char {
    if '\'' in s && '"' !in s then '"' else '\''
  }

  function Escape(s: string, q: char): (text: string)
    ensures |text| >= |s|
  {
    if s == [] then [] else EscapeChar(s[0], q) + Escape(s[1..], q)
  }

  function EscapeChar(c: char, q: char): (text: string)
    ensures 1 <= |text| <= 2
  {
    if c == q || c == '\\' then ['\\', c]
    else if c == '\n' then "\\n"
    else if c == '\t' then "\\t"
    else if c == '\r' then "\\r"
    else [c]
  }

  /** A character that needs no escape inside quotes `q`. */
  predicate Plain(c: char, q: char) {
    c != q && c != '\\' && c != '\n' && c != '\t' && c != '\r'
  }

  /** Whether no character of `s` needs an escape inside quotes `q`. */
  function AllPlain(s: string, q: char): bool {
    s == [] || (Plain(s[0], q) && AllPlain(s[1..], q))
  }

  lemma {:induction false} AllPlainMeaning(s: string, q: char)
    ensures AllPlain(s, q) <==> forall i :: 0 <= i < |s| ==> Plain(s[i], q)
  {
    if s != [] {
      AllPlainMeaning(s[1..], q);
      assert forall i :: 1 <= i < |s| ==> s[i] == s[1..][i - 1];
    }
  }

  /** Text without the quote, backslashes or line breaks is shown as it is. */
  lemma {:induction false} EscapePlain(s: string, q: char)
    requires forall i :: 0 <= i < |s| ==> Plain(s[i], q)
    ensures Escape(s, q) == s
  {
    if s != [] {
      EscapePlain(s[1..], q);
      assert s == [s[0]] + s[1..];
    }
  }

  /** Each character is escaped on its own: escaping distributes over concatenation. */
  lemma {:induction false} EscapeAppend(a: string, b: string, q: char)
    ensures Escape(a + b, q) == Escape(a, q) + Escape(b, q)
  {
    if a == [] {
      assert a + b == b;
    } else {
      assert (a + b)[0] == a[0] && (a + b)[1..] == a[1..] + b;
      EscapeAppend(a[1..], b, q);
    }
  }

  /** Text without the quote, backslashes or line breaks is quoted as it is. */
  lemma QuotePlain(s: string)
    requires AllPlain(s, '\'')
    ensures Quote(s) == "'" + s + "'"
  {
    AllPlainMeaning(s, '\'');
    assert forall i :: 0 <= i < |s| ==> s[i] != '\'';
    assert '\'' !in s;
    EscapePlain(s, '\'');
  }

  /** Reading an escaped text back: a backslash and the character after it stand for one character. */
  function Unescape(t: string): string
    decreases |t|
  {
    if t == [] then []
    else if t[0] == '\\' && |t| >= 2 then [Unescaped(t[1])] + Unescape(t[2..])
    else [t[0]] + Unescape(t[1..])
  }

  function Unescaped(c: char): char {
    if c == 'n' then '\n' else if c == 't' then '\t' else if c == 'r' then '\r' else c
  }

  lemma UnescapeStep(c: char, q: char, rest: string)
    requires q == '\'' || q == '"'
    ensures Unescape(EscapeChar(c, q) + rest) == [c] + Unescape(rest)
  {
    var e := EscapeChar(c, q);
    if |e| == 2 {
      assert (e + rest)[0] == '\\' && (e + rest)[1] == e[1] && (e + rest)[2..] == rest;
    } else {
      assert (e + rest)[0] == c && (e + rest)[1..] == rest;
    }
  }

  /** Escaping loses nothing: the text inside the quotes reads back as the string. */
  lemma {:induction false} UnescapeEscape(s: string, q: char)
    requires q == '\'' || q == '"'
    ensures Unescape(Escape(s, q)) == s
  {
    if s != [] {
      UnescapeStep(s[0], q, Escape(s[1..], q));
      UnescapeEscape(s[1..], q);
      assert s == [s[0]] + s[1..];
    }
  }
}
