/**
 * The text stored in the `valor` column for a business rule. The source stores
 * `json.dumps(rule)`; any lossless text encoding serves the same purpose, so the
 * model uses a length-prefixed one: every field is `-` when absent, or `+`
 * followed by its length in decimal, a colon and its characters. What matters,
 * and what is proved, is that the stored value decodes back to the rule.
 */
module RuleCodec {
  import opened Wrappers
  import opened Text
  import opened AutoDiscovery

  // ---------------------------------------------------------------- one field

  function EncodeString(s: string): (r: string)
    ensures |r| > |s|
  {
    NatToString(|s|) + ":" + s
  }

  /** Read one length-prefixed string off the front of `t`, giving it and what follows. */
  function DecodeString(t: string): (r: Option<(string, string)>)
    ensures r.Some? ==> |r.value.1| < |t|
  {
    var k := IndexOf(t, ':');
    if k == 0 || k == |t| then None
    else if exists i :: 0 <= i < k && !IsDigit(t[i]) then None
    else
      var n := DigitsValue(t[..k]);
      if k + 1 + n > |t| then None
      else Some((t[k + 1..k + 1 + n], t[k + 1 + n..]))
  }

  lemma DecodeEncodeString(s: string, rest: string)
    ensures DecodeString(EncodeString(s) + rest) == Some((s, rest))
  {
    var digits := NatToString(|s|);
    var t := EncodeString(s) + rest;
    assert t == digits + [':'] + (s + rest);
    assert ':' !in digits by {
      forall i | 0 <= i < |digits| ensures digits[i] != ':' {
        assert IsDigit(digits[i]);
      }
    }
    IndexOfAfter(digits, ':', s + rest);
    var k := |digits|;
    assert t[..k] == digits;
    DigitsValueOfNatToString(|s|);
    assert t[k + 1..k + 1 + |s|] == s;
    assert t[k + 1 + |s|..] == rest;
  }

  function EncodeOption(o: Option<string>): (r: string)
    ensures r != []
  {
    match o
    case None => "-"
    case Some(s) => "+" + EncodeString(s)
  }

  function DecodeOption(t: string): (r: Option<(Option<string>, string)>)
    ensures r.Some? ==> |r.value.1| < |t|
  {
    if t == [] then None
    else if t[0] == '-' then Some((None, t[1..]))
    else if t[0] == '+' then
      match DecodeString(t[1..])
      case None => None
      case Some((s, rest)) => Some((Some(s), rest))
    else None
  }

  lemma DecodeEncodeOption(o: Option<string>, rest: string)
    ensures DecodeOption(EncodeOption(o) + rest) == Some((o, rest))
  {
    if o.Some? {
      assert (EncodeOption(o) + rest)[1..] == EncodeString(o.value) + rest;
      DecodeEncodeString(o.value, rest);
    }
  }

  // ---------------------------------------------------------------- a sequence of fields

  function EncodeFields(fs: seq<Option<string>>): string {
    if fs == [] then "" else EncodeOption(fs[0]) + EncodeFields(fs[1..])
  }

  /** Read fields until the text is used up; `None` when the text is not a run of fields. */
  function DecodeFields(t: string): (r: Option<seq<Option<string>>>)
    decreases |t|
  {
    if t == [] then Some([])
    else
      match DecodeOption(t)
      case None => None
      case Some((o, rest)) =>
        match DecodeFields(rest)
        case None => None
        case Some(fs) => Some([o] + fs)
  }

  lemma {:induction false} DecodeEncodeFields(fs: seq<Option<string>>)
    ensures DecodeFields(EncodeFields(fs)) == Some(fs)
  {
    if fs != [] {
      DecodeEncodeOption(fs[0], EncodeFields(fs[1..]));
      DecodeEncodeFields(fs[1..]);
      assert fs == [fs[0]] + fs[1..];
    }
  }

  // ---------------------------------------------------------------- rules

  /** The kind of a message, as the tag stored in front of its arguments. */
  function MessageFields(m: Message): (fs: seq<Option<string>>)
    ensures |fs| == 4 && fs[0].Some? && fs[1].Some?
  {
    match m
    case NonNegative(c) => [Some("0"), Some(c), None, None]
    case DateFormat(c) => [Some("1"), Some(c), None, None]
    case EmailFormat(c) => [Some("2"), Some(c), None, None]
    case PhoneFormat(c) => [Some("3"), Some(c), None, None]
    case StateValue(c) => [Some("4"), Some(c), None, None]
    case NifFormat(c) => [Some("5"), Some(c), None, None]
    case MustExist(c, t, rc) => [Some("6"), Some(c), Some(t), Some(rc)]
    case Required(c) => [Some("7"), Some(c), None, None]
    case UniqueIn(c, t) => [Some("8"), Some(c), Some(t), None]
    case MustSatisfy(clause) => [Some("9"), Some(clause), None, None]
  }

  function MessageOfFields(fs: seq<Option<string>>): Option<Message>
    requires |fs| == 4
  {
    if fs[0].None? || fs[1].None? then None
    else
      var a := fs[1].value;
      var tag := fs[0].value;
      if tag == "0" then Some(NonNegative(a))
      else if tag == "1" then Some(DateFormat(a))
      else if tag == "2" then Some(EmailFormat(a))
      else if tag == "3" then Some(PhoneFormat(a))
      else if tag == "4" then Some(StateValue(a))
      else if tag == "5" then Some(NifFormat(a))
      else if tag == "6" then
        if fs[2].None? || fs[3].None? then None else Some(MustExist(a, fs[2].value, fs[3].value))
      else if tag == "7" then Some(Required(a))
      else if tag == "8" then
        if fs[2].None? then None else Some(UniqueIn(a, fs[2].value))
      else if tag == "9" then Some(MustSatisfy(a))
      else None
  }

  lemma MessageFieldsRoundTrip(m: Message)
    ensures MessageOfFields(MessageFields(m)) == Some(m)
  {
  }

  /** The rule's keys in the order the engine writes them, then its message. */
  function RuleFields(r: Rule): (fs: seq<Option<string>>)
    ensures |fs| == 13
  {
    [Some(r.ruleType), r.table, r.column, r.references, r.referencedColumn,
     r.constraintName, r.definition, Some(r.rule), r.pattern] + MessageFields(r.message)
  }

  function RuleOfFields(fs: seq<Option<string>>): Option<Rule> {
    if |fs| != 13 || fs[0].None? || fs[7].None? then None
    else
      match MessageOfFields(fs[9..])
      case None => None
      case Some(m) =>
        Some(Rule(fs[0].value, fs[1], fs[2], fs[3], fs[4], fs[5], fs[6], fs[7].value, fs[8], m))
  }

  lemma RuleFieldsRoundTrip(r: Rule)
    ensures RuleOfFields(RuleFields(r)) == Some(r)
  {
    assert RuleFields(r)[9..] == MessageFields(r.message);
    MessageFieldsRoundTrip(r.message);
  }

  /** The stored text of a rule (`json.dumps(rule)`). */
  function EncodeRule(r: Rule): string {
    EncodeFields(RuleFields(r))
  }

  /** Read a stored rule back (`json.loads`); `None` for text that is not an encoded rule. */
  function DecodeRule(t: string): Option<Rule> {
    match DecodeFields(t)
    case None => None
    case Some(fs) => RuleOfFields(fs)
  }

  /** The stored value decodes back to the rule it was made from. */
  lemma RuleRoundTrip(r: Rule)
    ensures DecodeRule(EncodeRule(r)) == Some(r)
  {
    DecodeEncodeFields(RuleFields(r));
    RuleFieldsRoundTrip(r);
  }

  /** Hence distinct rules are stored as distinct texts. */
  lemma EncodeRuleInjective(r1: Rule, r2: Rule)
    requires EncodeRule(r1) == EncodeRule(r2)
    ensures r1 == r2
  {
    RuleRoundTrip(r1);
    RuleRoundTrip(r2);
  }
}
