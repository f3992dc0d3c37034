/** The `git` Caddyfile directive: a dispenser over the directive's tokens,
    the parser that fills a client's configuration from them, and the global
    option that appends the parsed client to those parsed before.

        git [<repo>] [<path>] {
            repo|url <repo>        path <path>          branch <branch>
            auth_user <username>   auth_secret <password>
            single_branch true|false                    depth <depth>
            service_type <type>    service_interval <interval>
            command_after <command...>                  command_async true|false
        }
*/
module Caddyfile {
  import opened Wrappers
  import Strings
  import CR = ClientRepository
  import CC = ClientCommands

  /** A token of the Caddyfile and the line it is on. */
  datatype Token = Token(text: string, line: int)

  /** Where a dispenser stands: the index of the current token (-1 before
      the first) and how many blocks it is inside. */
  datatype Cursor = Cursor(pos: int, nesting: nat)

  predicate InRange(tokens: seq<Token>, c: Cursor) {
    -1 <= c.pos <= |tokens|
  }

  /** The current token's text, empty when there is none. */
  function Val(tokens: seq<Token>, c: Cursor): string {
    if 0 <= c.pos < |tokens| then tokens[c.pos].text else ""
  }

  predicate NextOnSameLine(tokens: seq<Token>, c: Cursor) {
    0 <= c.pos < |tokens| - 1 && tokens[c.pos].line == tokens[c.pos + 1].line
  }

  /** `Next`: the following token, wherever it is. */
  function Next(tokens: seq<Token>, c: Cursor): (r: (bool, Cursor))
    requires InRange(tokens, c)
    ensures InRange(tokens, r.1) && r.1.nesting == c.nesting
    ensures r.0 <==> c.pos < |tokens| - 1
    ensures r.1.pos == if r.0 then c.pos + 1 else c.pos
  {
    if c.pos < |tokens| - 1 then (true, c.(pos := c.pos + 1)) else (false, c)
  }

  /** `NextArg`: the following token if it is on the same line and does
      not open a block. */
  function NextArg(tokens: seq<Token>, c: Cursor): (r: (bool, Cursor))
    requires InRange(tokens, c)
    ensures InRange(tokens, r.1) && r.1.nesting == c.nesting
    ensures r.0 <==> NextOnSameLine(tokens, c) && tokens[c.pos + 1].text != "{"
    ensures r.1.pos == if r.0 then c.pos + 1 else c.pos
  {
    if NextOnSameLine(tokens, c) && tokens[c.pos + 1].text != "{" then (true, c.(pos := c.pos + 1)) else (false, c)
  }

  /** `RemainingArgs`: every argument left on the line. */
  function RemainingArgs(tokens: seq<Token>, c: Cursor): (r: (seq<string>, Cursor))
    requires InRange(tokens, c)
    ensures InRange(tokens, r.1) && r.1.nesting == c.nesting
    ensures r.1.pos == c.pos + |r.0|
    ensures r.0 == [] <==> !NextArg(tokens, c).0
    decreases |tokens| - c.pos
  {
    var (ok, c1) := NextArg(tokens, c);
    if !ok then ([], c)
    else
      var (rest, c2) := RemainingArgs(tokens, c1);
      ([Val(tokens, c1)] + rest, c2)
  }

  /** `NextBlock(0)`: outside a block, enters the block opened by a `{` on
      the current line (an empty block is skipped); inside it, moves to the
      next token, leaving the block at a `}` that ends its line. Blocks
      nested inside the directive's block are not modelled. */
  function NextBlock(tokens: seq<Token>, c: Cursor): (r: (bool, Cursor))
    requires InRange(tokens, c)
    ensures InRange(tokens, r.1)
    ensures r.1.pos >= c.pos
    ensures r.0 ==> r.1.pos > c.pos && r.1.nesting > 0
  {
    if c.nesting > 0 then
      var (ok, c1) := Next(tokens, c);
      if !ok then (false, c1)
      else if Val(tokens, c1) == "}" && !NextOnSameLine(tokens, c1) then (false, c1.(nesting := c1.nesting - 1))
      else (true, c1)
    else if !NextOnSameLine(tokens, c) then (false, c)
    else
      var c1 := c.(pos := c.pos + 1);
      if Val(tokens, c1) != "{" then (false, c)
      else
        var (_, c2) := Next(tokens, c1);
        if Val(tokens, c2) == "}" then (false, c2)
        else (true, c2.(nesting := c2.nesting + 1))
  }

  /** A `caddyfile.Dispenser`, as its tokens, its cursor and its nesting. */
  class Dispenser {
    const tokens: seq<Token>
    var cursor: int
    var nesting: nat

    constructor (tokens: seq<Token>)
      ensures this.tokens == tokens && cursor == -1 && nesting == 0
    {
      this.tokens := tokens;
      cursor := -1;
      nesting := 0;
    }

    function At(): Cursor
      reads this
    {
      Cursor(cursor, nesting)
    }

    predicate Valid()
      reads this
    {
      InRange(tokens, At())
    }

    function Current(): string
      reads this
    {
      Val(tokens, At())
    }

    method Advance() returns (ok: bool)
      requires Valid()
      modifies this
      ensures Valid() && (ok, At()) == Next(tokens, old(At()))
    {
      ok := cursor < |tokens| - 1;
      if ok {
        cursor := cursor + 1;
      }
    }

    method NextArgument() returns (ok: bool)
      requires Valid()
      modifies this
      ensures Valid() && (ok, At()) == NextArg(tokens, old(At()))
    {
      ok := NextOnSameLine(tokens, At()) && tokens[cursor + 1].text != "{";
      if ok {
        cursor := cursor + 1;
      }
    }

    method Remaining() returns (args: seq<string>)
      requires Valid()
      modifies this
      ensures Valid() && (args, At()) == RemainingArgs(tokens, old(At()))
    {
      args := [];
      while true
        invariant Valid() && nesting == old(nesting)
        invariant args + RemainingArgs(tokens, At()).0 == RemainingArgs(tokens, old(At())).0
        invariant RemainingArgs(tokens, At()).1 == RemainingArgs(tokens, old(At())).1
        decreases |tokens| - cursor
      {
        var ok := NextArgument();
        if !ok {
          assert RemainingArgs(tokens, At()) == ([], At());
          assert args + [] == args;
          return;
        }
        args := args + [Current()];
      }
    }

    method EnterOrStep() returns (ok: bool)
      requires Valid()
      modifies this
      ensures Valid() && (ok, At()) == NextBlock(tokens, old(At()))
    {
      if nesting > 0 {
        ok := Advance();
        if !ok {
          return;
        }
        if Current() == "}" && !NextOnSameLine(tokens, At()) {
          nesting := nesting - 1;
          return false;
        }
        return true;
      }
      if !NextOnSameLine(tokens, At()) {
        return false;
      }
      cursor := cursor + 1;
      if Current() != "{" {
        cursor := cursor - 1;
        return false;
      }
      ok := Advance();
      if Current() == "}" {
        return false;
      }
      nesting := nesting + 1;
      return true;
    }
  }

  /** The reasons parsing stops: `ArgErr` (its message depends on whether
      the token it is raised at is `{`), `<name> already specified`,
      `command_after not specified`, `strconv.ParseBool` and
      `strconv.ParseInt` failures, an unrecognised subdirective, and the
      global option's failure to decode the clients parsed before. */
  datatype ParseError =
    | ArgErr(at: string)
    | AlreadySpecified(name: string)
    | NotSpecified(name: string)
    | InvalidBool(text: string)
    | InvalidInt(text: string, reason: NumError)
    | Unrecognized(name: string)
    | InternalError(cause: string)

  datatype NumError = Syntax | OutOfRange

  /** `strconv.ParseBool`. */
  function ParseBool(s: string): (r: Result<bool, ParseError>)
    ensures r == Ok(true) <==> s in {"1", "t", "T", "TRUE", "true", "True"}
    ensures r == Ok(false) <==> s in {"0", "f", "F", "FALSE", "false", "False"}
    ensures r.Err? ==> r.error == InvalidBool(s)
  {
    if s == "1" || s == "t" || s == "T" || s == "TRUE" || s == "true" || s == "True" then Ok(true)
    else if s == "0" || s == "f" || s == "F" || s == "FALSE" || s == "false" || s == "False" then Ok(false)
    else Err(InvalidBool(s))
  }

  predicate AllDigits(s: string) {
    forall i :: 0 <= i < |s| ==> '0' <= s[i] <= '9'
  }

  /** The value of a string of decimal digits, most significant first. */
  function DigitsValue(s: string): nat
    requires AllDigits(s)
    decreases |s|
  {
    if s == [] then 0 else DigitsValue(s[..|s| - 1]) * 10 + (s[|s| - 1] as int - '0' as int)
  }

  const MinInt64: int := -0x8000_0000_0000_0000
  const MaxInt64: int := 0x7fff_ffff_ffff_ffff
  const MaxUint64: int := 0xffff_ffff_ffff_ffff

  /** The text after an optional leading sign. */
  function Unsigned(s: string): (body: string)
    ensures s != [] && (s[0] == '+' || s[0] == '-') ==> [s[0]] + body == s
    ensures s == [] || (s[0] != '+' && s[0] != '-') ==> body == s
  {
    if s != [] && (s[0] == '+' || s[0] == '-') then s[1..] else s
  }

  /** How many decimal digits `s` starts with. */
  function LeadingDigits(s: string): (k: nat)
    ensures k <= |s| && AllDigits(s[..k])
    ensures k < |s| ==> !('0' <= s[k] <= '9')
    decreases |s|
  {
    if s == [] || !('0' <= s[0] <= '9') then 0
    else
      var k := 1 + LeadingDigits(s[1..]);
      assert s[..k] == [s[0]] + s[1..][..k - 1];
      k
  }

  /** `strconv.ParseInt(s, 10, 0)` on a 64-bit platform: an optional sign
      and at least one decimal digit, with no underscores. The digits are
      read left to right and the reading stops with a range error as soon
      as the digits read so far are worth more than 2^64 - 1, before any
      later character that is not a digit is seen; a whole number outside
      the 64-bit signed range is a range error too. */
  function ParseInt(s: string): (r: Result<int, ParseError>)
    ensures r.Ok? ==> MinInt64 <= r.value <= MaxInt64
    ensures r.Err? ==> r.error.InvalidInt? && r.error.text == s
    ensures s == "" || s == "+" || s == "-" ==> r == Err(InvalidInt(s, Syntax))
    ensures AllDigits(s) && s != "" && DigitsValue(s) <= MaxInt64 ==> r == Ok(DigitsValue(s))
  {
    if s == "" then Err(InvalidInt(s, Syntax))
    else
      var body := Unsigned(s);
      if body == "" then Err(InvalidInt(s, Syntax))
      else if !AllDigits(body) then
        var k := LeadingDigits(body);
        if DigitsValue(body[..k]) > MaxUint64 then Err(InvalidInt(s, OutOfRange)) else Err(InvalidInt(s, Syntax))
      else
        var v: int := if s[0] == '-' then -(DigitsValue(body) as int) else DigitsValue(body) as int;
        if v < MinInt64 || v > MaxInt64 then Err(InvalidInt(s, OutOfRange)) else Ok(v)
  }

  /** Some run of digits at the start of `body` is worth more than 2^64 - 1. */
  ghost predicate DigitRunOverflows(body: string) {
    exists k :: 0 < k <= |body| && AllDigits(body[..k]) && DigitsValue(body[..k]) > MaxUint64
  }

  /** Appending digits never lowers the value: a prefix of a digit string is
      worth at most the whole string. */
  lemma {:induction false} DigitsPrefixValue(s: string, k: nat)
    requires AllDigits(s) && k <= |s|
    ensures AllDigits(s[..k]) && DigitsValue(s[..k]) <= DigitsValue(s)
    decreases |s|
  {
    if k < |s| {
      var init := s[..|s| - 1];
      DigitsPrefixValue(init, k);
      assert init[..k] == s[..k];
    } else {
      assert s[..k] == s;
    }
  }

  /** An overflowing run of leading digits is a range error whatever
      follows it: Go stops at the digit that overflows. */
  lemma ParseIntOverflow(s: string)
    ensures DigitRunOverflows(Unsigned(s)) ==> ParseInt(s) == Err(InvalidInt(s, OutOfRange))
  {
    var body := Unsigned(s);
    if DigitRunOverflows(body) {
      var k' :| 0 < k' <= |body| && AllDigits(body[..k']) && DigitsValue(body[..k']) > MaxUint64;
      if AllDigits(body) {
        DigitsPrefixValue(body, k');
      } else {
        RunWithinLeadingDigits(body, k');
      }
    }
  }

  /** A run of digits at the start of a text that is not all digits lies
      within its leading digits, and is worth no more than they are. */
  lemma RunWithinLeadingDigits(body: string, j: nat)
    requires !AllDigits(body) && j <= |body| && AllDigits(body[..j])
    ensures j <= LeadingDigits(body)
    ensures DigitsValue(body[..j]) <= DigitsValue(body[..LeadingDigits(body)])
  {
    var k := LeadingDigits(body);
    assert body[..|body|] == body;
    assert forall i :: 0 <= i < j ==> '0' <= body[i] <= '9';
    assert j <= k;
    DigitsPrefixValue(body[..k], j);
    assert body[..k][..j] == body[..j];
  }

  /** Digits followed by something else, without an overflowing run of
      digits before it, are a syntax error. */
  lemma ParseIntSyntax(s: string)
    ensures Unsigned(s) != "" && !AllDigits(Unsigned(s)) && !DigitRunOverflows(Unsigned(s))
            ==> ParseInt(s) == Err(InvalidInt(s, Syntax))
  {
    var body := Unsigned(s);
    if body != "" && !AllDigits(body) && !DigitRunOverflows(body) {
      var k := LeadingDigits(body);
      assert DigitsValue(body[..k]) <= MaxUint64 by {
        if k == 0 {
          assert body[..k] == [];
        }
      }
    }
  }

  /** A number's decimal digits followed by a character that is neither a
      digit nor a sign: a range error when the number is above 2^64 - 1,
      since Go stops at the digit that overflows, and a syntax error
      otherwise. So `depth 18446744073709551616x` is out of range and
      `depth 18446744073709551615x` is a syntax error. */
  lemma DigitsThenStray(n: nat, c: char)
    requires !('0' <= c <= '9')
    ensures var s := Strings.DecimalString(n) + [c];
            ParseInt(s) == Err(InvalidInt(s, if n > MaxUint64 then OutOfRange else Syntax))
  {
    var d := Strings.DecimalString(n);
    var s := d + [c];
    DigitsOfDecimal(n);
    StrayEndsDigits(d, c);
    assert Unsigned(s) == s;
  }

  /** Digits followed by a non-digit: the run of leading digits is exactly
      the digits, and the text is not all digits. */
  lemma StrayEndsDigits(d: string, c: char)
    requires AllDigits(d) && d != [] && !('0' <= c <= '9')
    ensures LeadingDigits(d + [c]) == |d| && (d + [c])[..|d|] == d
    ensures !AllDigits(d + [c]) && (d + [c])[0] == d[0]
  {
    var s := d + [c];
    assert s[|d|] == c;
    assert forall i :: 0 <= i < |d| ==> s[i] == d[i];
    assert s[..|d|] == d;
    assert s[..|s|] == s;
  }

  /** The digits of a number read back as that number. */
  lemma {:induction false} DigitsOfDecimal(n: nat)
    ensures AllDigits(Strings.DecimalString(n)) && DigitsValue(Strings.DecimalString(n)) == n
    decreases n
  {
    var s := Strings.DecimalString(n);
    if n >= 10 {
      DigitsOfDecimal(n / 10);
      assert s[..|s| - 1] == Strings.DecimalString(n / 10);
    }
  }

  /** Every non-negative 64-bit integer written in decimal parses back to
      itself, with or without a `+` sign. */
  lemma ParseNonNegative(n: nat)
    requires n <= MaxInt64
    ensures ParseInt(Strings.DecimalString(n)) == Ok(n)
    ensures ParseInt("+" + Strings.DecimalString(n)) == Ok(n)
  {
    var digits := Strings.DecimalString(n);
    DigitsOfDecimal(n);
    var signed := "+" + digits;
    assert signed[0] == '+' && signed[1..] == digits;
  }

  /** Every negative 64-bit integer, written as `-` and the decimal digits of
      its magnitude, parses back to itself. */
  lemma ParseNegative(n: int)
    requires MinInt64 <= n < 0
    ensures ParseInt("-" + Strings.DecimalString(-n)) == Ok(n)
  {
    var digits := Strings.DecimalString(-n);
    DigitsOfDecimal(-n);
    var signed := "-" + digits;
    assert signed[0] == '-' && signed[1..] == digits;
    assert Unsigned(signed) == digits && digits != "" && AllDigits(digits);
    assert -(DigitsValue(digits) as int) == n;
  }

  /** `ServiceRaw`: the two service settings a directive may give. */
  datatype ServiceRaw = ServiceRaw(serviceType: string, interval: string)

  /** The service configuration stored: nil when neither setting is given
      (the JSON of the struct, whose fields are both `omitempty`, is then
      `{}`). */
  function ServiceJSON(s: ServiceRaw): (r: Option<ServiceRaw>)
    ensures r == None <==> s.serviceType == "" && s.interval == ""
    ensures r.Some? ==> r.value == s
  {
    if s.serviceType == "" && s.interval == "" then None else Some(s)
  }

  /** What one directive's block builds: the repository options (which
      live in the configuration itself), and the service settings and the
      command (which are the directive's own). */
  datatype Draft = Draft(opts: CR.RepositoryOpts, service: ServiceRaw, command: CC.Command)

  /** A client's configuration as the parser leaves it. */
  datatype ClientConfig = ClientConfig(opts: CR.RepositoryOpts, rawCommands: seq<CC.Command>, serviceRaw: Option<ServiceRaw>)

  const ZeroConfig: ClientConfig := ClientConfig(CR.RepositoryOpts("", "", "", "", "", false, 0), [], None)

  /** `validateStringParamter`: a parameter already set is an error; else
      the next argument on the line becomes its value; none is `ArgErr`.
      On error the parameter keeps its value. */
  function StringParam(tokens: seq<Token>, c: Cursor, name: string, current: string): (r: (Cursor, string, Option<ParseError>))
    requires InRange(tokens, c)
    ensures InRange(tokens, r.0) && r.0.nesting == c.nesting && r.0.pos >= c.pos
    ensures current != "" ==> r == (c, current, Some(AlreadySpecified(name)))
    ensures current == "" && !NextArg(tokens, c).0 ==> r == (c, current, Some(ArgErr(Val(tokens, c))))
    ensures current == "" && NextArg(tokens, c).0 ==> r == (NextArg(tokens, c).1, Val(tokens, NextArg(tokens, c).1), None)
  {
    if current != "" then (c, current, Some(AlreadySpecified(name)))
    else
      var (ok, c1) := NextArg(tokens, c);
      if !ok then (c1, current, Some(ArgErr(Val(tokens, c1))))
      else (c1, Val(tokens, c1), None)
  }

  /** A boolean argument: missing is `ArgErr`, otherwise `ParseBool`'s. */
  function BoolParam(tokens: seq<Token>, c: Cursor): (r: (Cursor, Result<bool, ParseError>))
    requires InRange(tokens, c)
    ensures InRange(tokens, r.0) && r.0.nesting == c.nesting && r.0.pos >= c.pos
    ensures !NextArg(tokens, c).0 ==> r.1 == Err(ArgErr(Val(tokens, c)))
    ensures NextArg(tokens, c).0 ==> r.1 == ParseBool(Val(tokens, NextArg(tokens, c).1))
  {
    var (ok, c1) := NextArg(tokens, c);
    if !ok then (c1, Err(ArgErr(Val(tokens, c1))))
    else (c1, ParseBool(Val(tokens, c1)))
  }

  /** The subdirectives that set a string, with the name their errors use. */
  const StringSubdirectives: set<string> := {"repo", "url", "path", "branch", "auth_user", "auth_secret", "service_type", "service_interval"}

  function Label(name: string): string {
    if name == "repo" || name == "url" then "repo or url" else name
  }

  /** The string a subdirective sets, as it stands in a draft. */
  function FieldOf(d: Draft, name: string): string
    requires name in StringSubdirectives
  {
    if name == "repo" || name == "url" then d.opts.url
    else if name == "path" then d.opts.path
    else if name == "branch" then d.opts.branch
    else if name == "auth_user" then d.opts.username
    else if name == "auth_secret" then d.opts.password
    else if name == "service_type" then d.service.serviceType
    else d.service.interval
  }

  function WithFieldOf(d: Draft, name: string, v: string): (r: Draft)
    requires name in StringSubdirectives
    ensures FieldOf(r, name) == v
    ensures r.command == d.command && r.opts.singleBranch == d.opts.singleBranch && r.opts.depth == d.opts.depth
    ensures forall other :: other in StringSubdirectives && Label(other) != Label(name) ==> FieldOf(r, other) == FieldOf(d, other)
  {
    if name == "repo" || name == "url" then d.(opts := d.opts.(url := v))
    else if name == "path" then d.(opts := d.opts.(path := v))
    else if name == "branch" then d.(opts := d.opts.(branch := v))
    else if name == "auth_user" then d.(opts := d.opts.(username := v))
    else if name == "auth_secret" then d.(opts := d.opts.(password := v))
    else if name == "service_type" then d.(service := d.service.(serviceType := v))
    else d.(service := d.service.(interval := v))
  }

  const Subdirectives: set<string> := StringSubdirectives + {"single_branch", "depth", "command_after", "command_async"}

  /** One subdirective of the block, named by the current token. */
  function Subdirective(tokens: seq<Token>, c: Cursor, d: Draft): (r: (Cursor, Draft, Option<ParseError>))
    requires InRange(tokens, c)
    ensures InRange(tokens, r.0) && r.0.nesting == c.nesting && r.0.pos >= c.pos
    ensures r.2.Some? ==> r.1 == d
  {
    var name := Val(tokens, c);
    if name in StringSubdirectives then
      var (c1, v, err) := StringParam(tokens, c, Label(name), FieldOf(d, name));
      (c1, if err.Some? then d else WithFieldOf(d, name, v), err)
    else if name == "single_branch" || name == "command_async" then BoolSubdirective(tokens, c, d, name)
    else if name == "depth" then DepthSubdirective(tokens, c, d)
    else if name == "command_after" then CommandAfter(tokens, c, d)
    else (c, d, Some(Unrecognized(name)))
  }

  function BoolSubdirective(tokens: seq<Token>, c: Cursor, d: Draft, name: string): (r: (Cursor, Draft, Option<ParseError>))
    requires InRange(tokens, c)
    ensures InRange(tokens, r.0) && r.0.nesting == c.nesting && r.0.pos >= c.pos
    ensures r.2.Some? ==> r.1 == d
  {
    var (c1, b) := BoolParam(tokens, c);
    if b.Err? then (c1, d, Some(b.error))
    else if name == "single_branch" then (c1, d.(opts := d.opts.(singleBranch := b.value)), None)
    else (c1, d.(command := d.command.(async := b.value)), None)
  }

  function DepthSubdirective(tokens: seq<Token>, c: Cursor, d: Draft): (r: (Cursor, Draft, Option<ParseError>))
    requires InRange(tokens, c)
    ensures InRange(tokens, r.0) && r.0.nesting == c.nesting && r.0.pos >= c.pos
    ensures r.2.Some? ==> r.1 == d
  {
    var (ok, c1) := NextArg(tokens, c);
    if !ok then (c1, d, Some(ArgErr(Val(tokens, c1))))
    else
      var i := ParseInt(Val(tokens, c1));
      if i.Err? then (c1, d, Some(i.error)) else (c1, d.(opts := d.opts.(depth := i.value)), None)
  }

  function CommandAfter(tokens: seq<Token>, c: Cursor, d: Draft): (r: (Cursor, Draft, Option<ParseError>))
    requires InRange(tokens, c)
    ensures InRange(tokens, r.0) && r.0.nesting == c.nesting && r.0.pos >= c.pos
    ensures r.2.Some? ==> r.1 == d
  {
    if |d.command.args| > 0 then (c, d, Some(AlreadySpecified("command_after")))
    else
      var (args, c1) := RemainingArgs(tokens, c);
      if |args| < 1 then (c1, d, Some(NotSpecified("command_after")))
      else (c1, d.(command := d.command.(args := args)), None)
  }

  /** The loop over the block: subdirectives until the block ends or one
      fails. */
  function Block(tokens: seq<Token>, c: Cursor, d: Draft): (r: (Cursor, Draft, Option<ParseError>))
    requires InRange(tokens, c)
    ensures InRange(tokens, r.0) && r.0.pos >= c.pos
    decreases |tokens| - c.pos
  {
    var (ok, c1) := NextBlock(tokens, c);
    if !ok then (c1, d, None)
    else
      var (c2, d2, err) := Subdirective(tokens, c1, d);
      if err.Some? then (c2, d2, err) else Block(tokens, c2, d2)
  }

  /** The directive's own arguments: the URL, then the path, and no third. */
  function Header(tokens: seq<Token>, c: Cursor, opts: CR.RepositoryOpts): (r: (Cursor, CR.RepositoryOpts, Option<ParseError>))
    requires InRange(tokens, c)
    ensures InRange(tokens, r.0) && r.0.nesting == c.nesting && r.0.pos >= c.pos
  {
    var (ok1, c1) := NextArg(tokens, c);
    if !ok1 then (c1, opts, None)
    else
      var o1 := opts.(url := Val(tokens, c1));
      var (ok2, c2) := NextArg(tokens, c1);
      if !ok2 then (c2, o1, None)
      else
        var o2 := o1.(path := Val(tokens, c2));
        var (ok3, c3) := NextArg(tokens, c2);
        if ok3 then (c3, o2, Some(ArgErr(Val(tokens, c3)))) else (c3, o2, None)
  }

  /** `UnmarshalCaddyfile`: every directive in turn, each with its
      arguments and its block. The repository options carry over from one
      directive to the next; the service settings and the command start
      afresh and replace the stored ones when the directive's block ends.
      A failure stops parsing with what was stored so far. */
  function Directives(tokens: seq<Token>, c: Cursor, cfg: ClientConfig): (r: (Cursor, ClientConfig, Option<ParseError>))
    requires InRange(tokens, c)
    ensures InRange(tokens, r.0)
    decreases |tokens| - c.pos
  {
    var (ok, c1) := Next(tokens, c);
    if !ok then (c1, cfg, None)
    else
      var (c2, opts, herr) := Header(tokens, c1, cfg.opts);
      if herr.Some? then (c2, cfg.(opts := opts), herr)
      else
        var (c3, d, berr) := Block(tokens, c2, Draft(opts, ServiceRaw("", ""), CC.Command([], false)));
        if berr.Some? then (c3, cfg.(opts := d.opts), berr)
        else Directives(tokens, c3, ClientConfig(d.opts, [d.command], ServiceJSON(d.service)))
  }

  /** The directive's arguments: none leaves the options alone, the first
      is the URL, the second the path, and a third is `ArgErr` at it. */
  lemma HeaderArgs(tokens: seq<Token>, c: Cursor, opts: CR.RepositoryOpts)
    requires InRange(tokens, c)
    ensures var args := RemainingArgs(tokens, c).0;
            var (_, o, err) := Header(tokens, c, opts);
            (args == [] ==> o == opts)
            && (|args| >= 1 ==> o == opts.(url := args[0], path := if |args| >= 2 then args[1] else opts.path))
            && (err == None <==> |args| < 3)
            && (|args| >= 3 ==> err == Some(ArgErr(args[2])))
  {
    var (ok1, c1) := NextArg(tokens, c);
    if ok1 {
      var (ok2, c2) := NextArg(tokens, c1);
      if ok2 {
        var (ok3, c3) := NextArg(tokens, c2);
        if ok3 {
          assert RemainingArgs(tokens, c2).0[0] == Val(tokens, c3);
        }
      }
    }
  }

  /** The string subdirectives: one whose parameter is already set fails
      with `<name> already specified` (`repo or url` for both spellings of
      the URL); one without an argument is `ArgErr`; otherwise the
      parameter takes the argument and nothing else changes. */
  lemma StringSubdirectiveRules(tokens: seq<Token>, c: Cursor, d: Draft)
    requires InRange(tokens, c) && Val(tokens, c) in StringSubdirectives
    ensures var name := Val(tokens, c);
            var (_, d', err) := Subdirective(tokens, c, d);
            (err == Some(AlreadySpecified(Label(name))) <==> FieldOf(d, name) != "")
            && (FieldOf(d, name) == "" && !NextArg(tokens, c).0 ==> err == Some(ArgErr(name)))
            && (FieldOf(d, name) == "" && NextArg(tokens, c).0 ==>
                  err == None && FieldOf(d', name) == Val(tokens, NextArg(tokens, c).1)
                  && d'.command == d.command && d'.opts.singleBranch == d.opts.singleBranch && d'.opts.depth == d.opts.depth
                  && forall other :: other in StringSubdirectives && Label(other) != Label(name) ==> FieldOf(d', other) == FieldOf(d, other))
  {
  }

  /** `repo` and `url` set the same field, so giving both fails. */
  lemma RepoIsUrl(d: Draft)
    ensures FieldOf(d, "repo") == FieldOf(d, "url") && Label("repo") == Label("url") == "repo or url"
  {
  }

  /** `single_branch` and `command_async`: a missing argument is `ArgErr`,
      an argument `ParseBool` refuses is its error, and otherwise the flag
      takes the value. A failure changes nothing. */
  lemma BoolSubdirectiveRules(tokens: seq<Token>, c: Cursor, d: Draft)
    requires InRange(tokens, c) && Val(tokens, c) in {"single_branch", "command_async"}
    ensures var (ok, c1) := NextArg(tokens, c);
            var (_, d', err) := Subdirective(tokens, c, d);
            (!ok ==> err == Some(ArgErr(Val(tokens, c))) && d' == d)
            && (ok ==> (err == None <==> ParseBool(Val(tokens, c1)).Ok?)
                       && (err.Some? ==> err == Some(InvalidBool(Val(tokens, c1))) && d' == d))
            && (ok && err == None && Val(tokens, c) == "single_branch" ==>
                  d' == d.(opts := d.opts.(singleBranch := ParseBool(Val(tokens, c1)).value)))
            && (ok && err == None && Val(tokens, c) == "command_async" ==>
                  d' == d.(command := d.command.(async := ParseBool(Val(tokens, c1)).value)))
  {
    assert Val(tokens, c) !in StringSubdirectives by {
      assert |Val(tokens, c)| == 13;
    }
    assert Subdirective(tokens, c, d) == BoolSubdirective(tokens, c, d, Val(tokens, c));
  }

  /** `depth`: a missing argument is `ArgErr`, an argument `ParseInt` refuses
      is its error, and otherwise the depth takes the value. */
  lemma DepthSubdirectiveRules(tokens: seq<Token>, c: Cursor, d: Draft)
    requires InRange(tokens, c) && Val(tokens, c) == "depth"
    ensures var (ok, c1) := NextArg(tokens, c);
            var (_, d', err) := Subdirective(tokens, c, d);
            (!ok ==> err == Some(ArgErr("depth")) && d' == d)
            && (ok ==> (err == None <==> ParseInt(Val(tokens, c1)).Ok?)
                       && (err.Some? ==> err == Some(ParseInt(Val(tokens, c1)).error) && d' == d)
                       && (err == None ==> d' == d.(opts := d.opts.(depth := ParseInt(Val(tokens, c1)).value))))
  {
    assert |"depth"| == 5;
    assert Subdirective(tokens, c, d) == DepthSubdirective(tokens, c, d);
  }

  /** `command_after` may be given once per directive, with at least one
      argument, and takes every argument left on its line. */
  lemma CommandAfterRules(tokens: seq<Token>, c: Cursor, d: Draft)
    requires InRange(tokens, c) && Val(tokens, c) == "command_after"
    ensures var args := RemainingArgs(tokens, c).0;
            var (_, d', err) := Subdirective(tokens, c, d);
            (|d.command.args| > 0 ==> err == Some(AlreadySpecified("command_after")))
            && (|d.command.args| == 0 && args == [] ==> err == Some(NotSpecified("command_after")))
            && (|d.command.args| == 0 && args != [] ==> err == None && d' == d.(command := d.command.(args := args)))
  {
    DispatchCommandAfter(tokens, c, d);
    if |d.command.args| == 0 {
      var (args, c1) := RemainingArgs(tokens, c);
      assert CommandAfter(tokens, c, d) == if args == [] then (c1, d, Some(NotSpecified("command_after")))
                                            else (c1, d.(command := d.command.(args := args)), None);
    }
  }

  lemma DispatchCommandAfter(tokens: seq<Token>, c: Cursor, d: Draft)
    requires InRange(tokens, c) && Val(tokens, c) == "command_after"
    ensures Subdirective(tokens, c, d) == CommandAfter(tokens, c, d)
  {
    var name := Val(tokens, c);
    assert name !in StringSubdirectives by {
      assert |name| == 13;
    }
    assert name != "single_branch" by {
      assert name[0] != "single_branch"[0];
    }
    assert name != "command_async" by {
      assert name[9] != "command_async"[9];
    }
  }

  /** Any other name is refused as unrecognised, changing nothing. */
  lemma UnknownSubdirectiveRule(tokens: seq<Token>, c: Cursor, d: Draft)
    requires InRange(tokens, c) && Val(tokens, c) !in Subdirectives
    ensures Subdirective(tokens, c, d) == (c, d, Some(Unrecognized(Val(tokens, c))))
  {
  }

  /** Whatever the tokens, a configuration that stores a service stores a
      non-empty one, and every directive parsed stores exactly one command:
      `ServiceRaw` is nil exactly when the last directive gave neither
      service setting. Without a directive nothing changes. */
  lemma {:induction false} DirectivesStore(tokens: seq<Token>, c: Cursor, cfg: ClientConfig)
    requires InRange(tokens, c)
    ensures var (_, cfg', err) := Directives(tokens, c, cfg);
            (!Next(tokens, c).0 ==> cfg' == cfg && err == None)
            && (Next(tokens, c).0 && err == None ==>
                  |cfg'.rawCommands| == 1 && (cfg'.serviceRaw == None || cfg'.serviceRaw.value != ServiceRaw("", "")))
    decreases |tokens| - c.pos
  {
    var (ok, c1) := Next(tokens, c);
    if ok {
      var (c2, opts, herr) := Header(tokens, c1, cfg.opts);
      if herr == None {
        var (c3, d, berr) := Block(tokens, c2, Draft(opts, ServiceRaw("", ""), CC.Command([], false)));
        if berr == None {
          DirectivesStore(tokens, c3, ClientConfig(d.opts, [d.command], ServiceJSON(d.service)));
        }
      }
    }
  }

  /** A directive without `command_after` stores the command without
      arguments, on which the `client` commander's `Run`, as written, panics. */
  lemma NoCommandAfterPanics(doneFrom: nat)
    ensures var (_, cfg, err) := Directives([Token("git", 1), Token("u", 1)], Cursor(-1, 0), ZeroConfig);
            err == None && cfg.rawCommands == [CC.Command([], false)] && CC.RunPanics(cfg.rawCommands, doneFrom)
  {
    CC.EmptyCommandPanics(doneFrom);
  }

  /** Examples of whole directives: `url` after a positional URL is a
      duplicate; a full directive fills the options, stores its one command
      and no service; a third positional argument is refused. */
  lemma UrlAfterPositional()
    ensures Directives([Token("git", 1), Token("u", 1), Token("{", 1), Token("url", 2), Token("v", 2), Token("}", 3)],
                       Cursor(-1, 0), ZeroConfig).2
            == Some(AlreadySpecified("repo or url"))
  {
  }

  const Example: seq<Token> := [Token("git", 1), Token("u", 1), Token("p", 1), Token("{", 1),
                                Token("branch", 2), Token("main", 2),
                                Token("command_after", 3), Token("make", 3), Token("build", 3),
                                Token("}", 4)]
  const ExampleOpts: CR.RepositoryOpts := CR.RepositoryOpts("u", "p", "", "", "", false, 0)
  const ExampleDraft: Draft := Draft(ExampleOpts, ServiceRaw("", ""), CC.Command([], false))
  const ExampleBranch: Draft := ExampleDraft.(opts := ExampleOpts.(branch := "main"))
  const ExampleDone: Draft := ExampleBranch.(command := CC.Command(["make", "build"], false))

  lemma FullDirective()
    ensures Directives(Example, Cursor(-1, 0), ZeroConfig)
            == (Cursor(9, 0),
                ClientConfig(CR.RepositoryOpts("u", "p", "main", "", "", false, 0), [CC.Command(["make", "build"], false)], None),
                None)
  {
    assert Header(Example, Cursor(0, 0), ZeroConfig.opts) == (Cursor(2, 0), ExampleOpts, None);
    ExampleBlock();
    var cfg := ClientConfig(ExampleDone.opts, [ExampleDone.command], None);
    assert Directives(Example, Cursor(9, 0), cfg) == (Cursor(9, 0), cfg, None);
  }

  lemma ExampleBlock()
    ensures Block(Example, Cursor(2, 0), ExampleDraft) == (Cursor(9, 0), ExampleDone, None)
  {
    assert NextBlock(Example, Cursor(2, 0)) == (true, Cursor(4, 1));
    assert Subdirective(Example, Cursor(4, 1), ExampleDraft) == (Cursor(5, 1), ExampleBranch, None);
    ExampleCommand();
  }

  lemma ExampleCommand()
    ensures Block(Example, Cursor(5, 1), ExampleBranch) == (Cursor(9, 0), ExampleDone, None)
  {
    assert NextBlock(Example, Cursor(5, 1)) == (true, Cursor(6, 1));
    ExampleArgs();
    assert Subdirective(Example, Cursor(6, 1), ExampleBranch) == (Cursor(8, 1), ExampleDone, None);
    assert NextBlock(Example, Cursor(8, 1)) == (false, Cursor(9, 0));
  }

  lemma ExampleArgs()
    ensures RemainingArgs(Example, Cursor(6, 1)) == (["make", "build"], Cursor(8, 1))
  {
    assert RemainingArgs(Example, Cursor(8, 1)) == ([], Cursor(8, 1));
    assert NextArg(Example, Cursor(7, 1)) == (true, Cursor(8, 1)) && Val(Example, Cursor(8, 1)) == "build";
    assert ["build"] + [] == ["build"];
    assert RemainingArgs(Example, Cursor(7, 1)) == (["build"], Cursor(8, 1));
    assert NextArg(Example, Cursor(6, 1)) == (true, Cursor(7, 1)) && Val(Example, Cursor(7, 1)) == "make";
    assert ["make"] + ["build"] == ["make", "build"];
  }

  lemma ThirdArgument()
    ensures Directives([Token("git", 1), Token("a", 1), Token("b", 1), Token("c", 1)], Cursor(-1, 0), ZeroConfig).2
            == Some(ArgErr("c"))
  {
  }

  /** `CaddyfileSettings`: the client being configured. */
  class CaddyfileSettings {
    var opts: CR.RepositoryOpts
    var rawCommands: seq<CC.Command>
    var serviceRaw: Option<ServiceRaw>

    constructor ()
      ensures Config() == ZeroConfig
    {
      opts := ZeroConfig.opts;
      rawCommands := [];
      serviceRaw := None;
    }

    function Config(): ClientConfig
      reads this
    {
      ClientConfig(opts, rawCommands, serviceRaw)
    }

    /** `UnmarshalCaddyfile` on the dispenser `d`. */
    method UnmarshalCaddyfile(d: Dispenser) returns (err: Option<ParseError>)
      requires d.Valid()
      modifies this, d
      ensures d.Valid()
      ensures (d.At(), Config(), err) == Directives(d.tokens, old(d.At()), old(Config()))
    {
      while true
        invariant d.Valid()
        invariant Directives(d.tokens, d.At(), Config()) == Directives(d.tokens, old(d.At()), old(Config()))
        decreases |d.tokens| - d.cursor
      {
        var more := d.Advance();
        if !more {
          return None;
        }
        var opts', herr := Arguments(d, opts);
        opts := opts';
        if herr.Some? {
          return herr;
        }
        var draft, berr := ParseBlock(d, Draft(opts, ServiceRaw("", ""), CC.Command([], false)));
        opts := draft.opts;
        if berr.Some? {
          return berr;
        }
        serviceRaw := ServiceJSON(draft.service);
        rawCommands := [draft.command];
      }
    }
  }

  /** The directive's arguments, read from the dispenser. */
  method Arguments(d: Dispenser, opts: CR.RepositoryOpts) returns (opts': CR.RepositoryOpts, err: Option<ParseError>)
    requires d.Valid()
    modifies d
    ensures d.Valid()
    ensures (d.At(), opts', err) == Header(d.tokens, old(d.At()), opts)
  {
    opts' := opts;
    var ok := d.NextArgument();
    if !ok {
      return opts', None;
    }
    opts' := opts'.(url := d.Current());
    ok := d.NextArgument();
    if !ok {
      return opts', None;
    }
    opts' := opts'.(path := d.Current());
    ok := d.NextArgument();
    if ok {
      return opts', Some(ArgErr(d.Current()));
    }
    return opts', None;
  }

  /** The block loop, read from the dispenser. */
  method ParseBlock(d: Dispenser, start: Draft) returns (draft: Draft, err: Option<ParseError>)
    requires d.Valid()
    modifies d
    ensures d.Valid()
    ensures (d.At(), draft, err) == Block(d.tokens, old(d.At()), start)
  {
    draft := start;
    while true
      invariant d.Valid()
      invariant Block(d.tokens, d.At(), draft) == Block(d.tokens, old(d.At()), start)
      decreases |d.tokens| - d.cursor
    {
      var inside := d.EnterOrStep();
      if !inside {
        return draft, None;
      }
      var next, e := ApplySubdirective(d, draft);
      draft := next;
      if e.Some? {
        return draft, e;
      }
    }
  }

  /** One subdirective, read from the dispenser. */
  method ApplySubdirective(d: Dispenser, draft: Draft) returns (next: Draft, err: Option<ParseError>)
    requires d.Valid()
    modifies d
    ensures d.Valid()
    ensures (d.At(), next, err) == Subdirective(d.tokens, old(d.At()), draft)
  {
    var name := d.Current();
    next := draft;
    if name in StringSubdirectives {
      var v, e := ValidateStringParameter(d, Label(name), FieldOf(draft, name));
      if e.Some? {
        return draft, e;
      }
      return WithFieldOf(draft, name, v), None;
    } else if name == "single_branch" || name == "command_async" {
      var ok := d.NextArgument();
      if !ok {
        return draft, Some(ArgErr(d.Current()));
      }
      var b := ParseBool(d.Current());
      if b.Err? {
        return draft, Some(b.error);
      }
      if name == "single_branch" {
        next := draft.(opts := draft.opts.(singleBranch := b.value));
      } else {
        next := draft.(command := draft.command.(async := b.value));
      }
    } else if name == "depth" {
      var ok := d.NextArgument();
      if !ok {
        return draft, Some(ArgErr(d.Current()));
      }
      var i := ParseInt(d.Current());
      if i.Err? {
        return draft, Some(i.error);
      }
      next := draft.(opts := draft.opts.(depth := i.value));
    } else if name == "command_after" {
      if |draft.command.args| > 0 {
        return draft, Some(AlreadySpecified("command_after"));
      }
      var args := d.Remaining();
      if |args| < 1 {
        return draft, Some(NotSpecified("command_after"));
      }
      next := draft.(command := draft.command.(args := args));
    } else {
      return draft, Some(Unrecognized(name));
    }
    return next, None;
  }

  /** `validateStringParamter`, returning the parameter's new value. */
  method ValidateStringParameter(d: Dispenser, name: string, current: string) returns (v: string, err: Option<ParseError>)
    requires d.Valid()
    modifies d
    ensures d.Valid()
    ensures (d.At(), v, err) == StringParam(d.tokens, old(d.At()), name, current)
  {
    if current != "" {
      return current, Some(AlreadySpecified(name));
    }
    var ok := d.NextArgument();
    if !ok {
      return current, Some(ArgErr(d.Current()));
    }
    return d.Current(), None;
  }

  /** What the global option finds from earlier `git` options: nothing,
      a value that is not an app, or an app whose JSON decodes to the clients
      parsed so far or fails to. */
  datatype Previous = NoPrevious | NotAnApp | App(decoded: Result<seq<ClientConfig>, string>)

  function PreviousClients(prev: Previous): seq<ClientConfig>
  {
    if prev.App? && prev.decoded.Ok? then prev.decoded.value else []
  }

  /** `parseGlobalCaddyfileBlock`: earlier clients that do not decode are an
      internal error; otherwise the directive is parsed into a fresh client,
      and that client is appended to the earlier ones. */
  method ParseGlobal(prev: Previous, tokens: seq<Token>) returns (r: Result<seq<ClientConfig>, ParseError>)
    ensures prev.App? && prev.decoded.Err? ==> r == Err(InternalError(prev.decoded.error))
    ensures !(prev.App? && prev.decoded.Err?) ==>
              var (_, cfg, err) := Directives(tokens, Cursor(-1, 0), ZeroConfig);
              (err.Some? ==> r == Err(err.value))
              && (err == None ==> r == Ok(PreviousClients(prev) + [cfg]))
  {
    if prev.App? && prev.decoded.Err? {
      return Err(InternalError(prev.decoded.error));
    }
    var clients := PreviousClients(prev);
    var d := new Dispenser(tokens);
    var config := new CaddyfileSettings();
    var err := config.UnmarshalCaddyfile(d);
    if err.Some? {
      return Err(err.value);
    }
    return Ok(clients + [config.Config()]);
  }

  /** `parseCaddyfileHandlerBlock`: the directive is parsed and its error
      returned, alongside a handler that sets the `root` variable to `/x`;
      the parsed client is not used. */
  method ParseHandler(tokens: seq<Token>) returns (vars: map<string, string>, err: Option<ParseError>)
    ensures vars == map["root" := "/x"]
    ensures err == Directives(tokens, Cursor(-1, 0), ZeroConfig).2
  {
    var d := new Dispenser(tokens);
    var config := new CaddyfileSettings();
    err := config.UnmarshalCaddyfile(d);
    vars := map["root" := "/x"];
  }
}
