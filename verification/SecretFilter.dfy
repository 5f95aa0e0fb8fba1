/** The logging filter that rewrites records in place, and what installing it twice does. */
module SecretFilter {
  import opened LogFilter
  import opened RedactionPasses
  import opened RedactionIdempotence

  /** The `%`-formatting of the logging library. */
  type Formatter = (string, seq<string>) -> string

  /** `LogRecord.getMessage`: arguments are formatted in only when there are some. */
  function Message(format: Formatter, msg: string, args: seq<string>): string {
    if args == [] then msg else format(msg, args)
  }

  class LogRecord {
    var msg: string
    var args: seq<string>

    constructor (msg: string, args: seq<string>)
      ensures this.msg == msg && this.args == args
    {
      this.msg := msg;
      this.args := args;
    }
  }

  class SecretRedactingFilter {
    const patterns: seq<Pattern>

    constructor (patterns: seq<Pattern>)
      ensures this.patterns == patterns
    {
      this.patterns := patterns;
    }

    /** Rewrite the record so that every later handler sees only redacted text. */
    method Filter(record: LogRecord, format: Formatter) returns (keep: bool)
      modifies record
      ensures keep
      ensures record.msg == Redacted(Message(format, old(record.msg), old(record.args)), patterns)
      ensures old(record.args) == [] ==> record.msg == Redacted(old(record.msg), patterns)
      ensures old(record.args) != [] ==> record.msg == Redacted(format(old(record.msg), old(record.args)), patterns)
      ensures record.args == []
      ensures forall later: Formatter :: Message(later, record.msg, record.args) == record.msg
    {
      var text := Message(format, record.msg, record.args);
      var out := Redact(text, patterns);
      record.msg := out;
      record.args := [];
      keep := true;
    }
  }

  /** What a handler sees after `n` default filters have run on the record. */
  function Seen(format: Formatter, msg: string, args: seq<string>, n: nat): string {
    if n == 0 then Message(format, msg, args)
    else Redacted(Seen(format, msg, args, n - 1), DEFAULT_PATTERNS)
  }

  lemma SeenTwice(format: Formatter, msg: string, args: seq<string>)
    ensures var once := Redacted(Message(format, msg, args), DEFAULT_PATTERNS);
            Seen(format, msg, args, 1) == once && Seen(format, msg, args, 2) == Redacted(once, DEFAULT_PATTERNS)
  {
    hide Redacted;
  }

  /** Two installed filters, run in order on one record. */
  method RunTwice(first: SecretRedactingFilter, second: SecretRedactingFilter, record: LogRecord, format: Formatter)
    requires first.patterns == DEFAULT_PATTERNS && second.patterns == DEFAULT_PATTERNS
    modifies record
    ensures record.msg == Seen(format, old(record.msg), old(record.args), 2) && record.args == []
    ensures NoFusedSecret(false, FirstThree(Message(format, old(record.msg), old(record.args)))) <==>
            record.msg == Seen(format, old(record.msg), old(record.args), 1)
  {
    hide Redacted, NoFusedSecret, FirstThree, Seen;
    SecondFilterIsNoOp(format, record.msg, record.args, 2);
    SeenTwice(format, record.msg, record.args);
    var keep := first.Filter(record, format);
    keep := second.Filter(record, format);
  }

  /** However many filters are installed, two and more leave the same text, and that is what one leaves exactly when no
      signature in the formatted message, as it enters the last pass, is glued to a secret. */
  lemma {:induction false} SecondFilterIsNoOp(format: Formatter, msg: string, args: seq<string>, n: nat)
    requires n >= 2
    ensures Seen(format, msg, args, n) == Seen(format, msg, args, 2)
    ensures Seen(format, msg, args, n) == Seen(format, msg, args, 1) <==>
            NoFusedSecret(false, FirstThree(Message(format, msg, args)))
    decreases n
  {
    hide Redacted, NoFusedSecret, FirstThree, Message;
    var text := Message(format, msg, args);
    RedactIdempotentIff(text);
    RedactTwiceIsEnough(text);
    SeenTwice(format, msg, args);
    if n > 2 { SecondFilterIsNoOp(format, msg, args, n - 1); }
  }
}
