/** The comma-separated list of retry delays in the settings, for any notion of white space that does
    not include the comma. */
module RetryDelays {
  import opened Delivery

  type Space = char -> bool

  /** The stretches between the commas, the empty ones among them. */
  function Split(s: string): (parts: seq<string>)
    ensures parts != []
  {
    if s == "" then [""]
    else
      var rest := Split(s[1..]);
      if s[0] == ',' then [""] + rest else [[s[0]] + rest[0]] + rest[1..]
  }

  function StripLeft(space: Space, s: string): string {
    if s != "" && space(s[0]) then StripLeft(space, s[1..]) else s
  }

  function StripRight(space: Space, s: string): string {
    if s != "" && space(s[|s| - 1]) then StripRight(space, s[..|s| - 1]) else s
  }

  function Strip(space: Space, s: string): string {
    StripRight(space, StripLeft(space, s))
  }

  /** Every part without the white space around it; blank parts are dropped. */
  function StripAll(space: Space, parts: seq<string>): seq<string> {
    if parts == [] then []
    else
      var part := Strip(space, parts[0]);
      (if part != "" then [part] else []) + StripAll(space, parts[1..])
  }

  function Tokens(space: Space, raw: string): seq<string> {
    StripAll(space, Split(raw))
  }

  datatype Delays = Numbers(delays: seq<int>) | ValueError

  /** The number of every token, or None when one of them is no number. */
  function Parse(number: string -> Option<int>, tokens: seq<string>): Option<seq<int>> {
    if tokens == [] then Some([])
    else
      match number(tokens[0])
      case None => None
      case Some(d) =>
        match Parse(number, tokens[1..])
        case None => None
        case Some(ds) => Some([d] + ds)
  }

  function RetryDelaysSeconds(space: Space, number: string -> Option<int>, raw: string): Delays {
    var parts := Tokens(space, raw);
    if parts == [] then ValueError
    else
      match Parse(number, parts)
      case None => ValueError
      case Some(delays) => Numbers(delays)
  }

  // ---------------------------------------------------------------------------------------
  // Printing with noise

  predicate Blank(space: Space, s: string) {
    forall i | 0 <= i < |s| :: space(s[i])
  }

  predicate NoComma(s: string) {
    forall i | 0 <= i < |s| :: s[i] != ','
  }

  /** Neither blank, nor padded, nor divided. */
  predicate IsToken(space: Space, s: string) {
    s != "" && !space(s[0]) && !space(s[|s| - 1]) && NoComma(s)
  }

  /** A segment between two commas: white space only, or a token with white space around it. */
  datatype Segment = Noise(blank: string) | Padded(left: string, token: string, right: string)

  predicate Printable(space: Space, g: Segment) {
    match g
    case Noise(blank) => Blank(space, blank)
    case Padded(left, token, right) => Blank(space, left) && IsToken(space, token) && Blank(space, right)
  }

  function Print(g: Segment): string {
    match g
    case Noise(blank) => blank
    case Padded(left, token, right) => left + token + right
  }

  function PrintAll(gs: seq<Segment>): string
    requires gs != []
  {
    if |gs| == 1 then Print(gs[0]) else Print(gs[0]) + "," + PrintAll(gs[1..])
  }

  /** The tokens that were printed. */
  function Printed(gs: seq<Segment>): seq<string> {
    if gs == [] then []
    else (if gs[0].Padded? then [gs[0].token] else []) + Printed(gs[1..])
  }

  function PrintEach(gs: seq<Segment>): seq<string> {
    if gs == [] then [] else [Print(gs[0])] + PrintEach(gs[1..])
  }

  lemma {:induction false} SplitLast(part: string)
    requires NoComma(part)
    ensures Split(part) == [part]
  {
    if part != "" {
      SplitLast(part[1..]);
      assert [part[0]] + part[1..] == part;
    }
  }

  lemma {:induction false} SplitFirst(part: string, rest: string)
    requires NoComma(part)
    ensures Split(part + "," + rest) == [part] + Split(rest)
  {
    var s := part + "," + rest;
    if part == "" {
      assert s[1..] == rest;
    } else {
      assert s[1..] == part[1..] + "," + rest;
      SplitFirst(part[1..], rest);
      assert [part[0]] + part[1..] == part;
    }
  }

  lemma PrintNoComma(space: Space, g: Segment)
    requires !space(',') && Printable(space, g)
    ensures NoComma(Print(g))
  {
  }

  lemma {:induction false} SplitPrinted(space: Space, gs: seq<Segment>)
    requires gs != [] && !space(',') && forall g | g in gs :: Printable(space, g)
    ensures Split(PrintAll(gs)) == PrintEach(gs)
  {
    PrintNoComma(space, gs[0]);
    if |gs| == 1 {
      SplitLast(Print(gs[0]));
    } else {
      SplitFirst(Print(gs[0]), PrintAll(gs[1..]));
      SplitPrinted(space, gs[1..]);
    }
  }

  lemma {:induction false} StripLeftBlank(space: Space, left: string, s: string)
    requires Blank(space, left)
    ensures StripLeft(space, left + s) == StripLeft(space, s)
  {
    if left == "" {
      assert left + s == s;
    } else {
      assert (left + s)[1..] == left[1..] + s;
      StripLeftBlank(space, left[1..], s);
    }
  }

  lemma {:induction false} StripRightBlank(space: Space, s: string, right: string)
    requires Blank(space, right)
    ensures StripRight(space, s + right) == StripRight(space, s)
  {
    if right == "" {
      assert s + right == s;
    } else {
      var n := |right| - 1;
      assert (s + right)[..|s| + n] == s + right[..n];
      StripRightBlank(space, s, right[..n]);
    }
  }

  lemma StripPrinted(space: Space, g: Segment)
    requires Printable(space, g)
    ensures Strip(space, Print(g)) == if g.Padded? then g.token else ""
  {
    match g
    case Noise(blank) =>
      assert blank + "" == blank;
      StripLeftBlank(space, blank, "");
    case Padded(left, token, right) =>
      assert left + token + right == left + (token + right);
      StripLeftBlank(space, left, token + right);
      StripRightBlank(space, token, right);
  }

  lemma {:induction false} StripAllPrinted(space: Space, gs: seq<Segment>)
    requires forall g | g in gs :: Printable(space, g)
    ensures StripAll(space, PrintEach(gs)) == Printed(gs)
  {
    if gs != [] {
      StripPrinted(space, gs[0]);
      assert gs[0].Padded? ==> gs[0].token != "" by { assert Printable(space, gs[0]); }
      assert PrintEach(gs)[1..] == PrintEach(gs[1..]);
      StripAllPrinted(space, gs[1..]);
    }
  }

  /** Reading inverts printing: any list of tokens joined by commas, with any white space around them
      and any blank segments between them, is read back exactly. */
  lemma TokensInvertPrinting(space: Space, gs: seq<Segment>)
    requires gs != [] && !space(',') && forall g | g in gs :: Printable(space, g)
    ensures Tokens(space, PrintAll(gs)) == Printed(gs)
  {
    SplitPrinted(space, gs);
    StripAllPrinted(space, gs);
  }

  // ---------------------------------------------------------------------------------------
  // The other direction: every setting is some printing

  lemma {:induction false} PeelLeft(space: Space, s: string) returns (left: string)
    ensures Blank(space, left) && s == left + StripLeft(space, s)
    ensures StripLeft(space, s) != "" ==> !space(StripLeft(space, s)[0])
  {
    if s != "" && space(s[0]) {
      left := PeelLeft(space, s[1..]);
      left := [s[0]] + left;
    } else {
      left := "";
    }
  }

  lemma {:induction false} PeelRight(space: Space, s: string) returns (right: string)
    ensures Blank(space, right) && s == StripRight(space, s) + right
    ensures StripRight(space, s) != "" ==> !space(StripRight(space, s)[|StripRight(space, s)| - 1])
  {
    if s != "" && space(s[|s| - 1]) {
      right := PeelRight(space, s[..|s| - 1]);
      assert s == s[..|s| - 1] + [s[|s| - 1]];
      right := right + [s[|s| - 1]];
    } else {
      right := "";
    }
  }

  lemma InnerNoComma(left: string, token: string, right: string)
    requires NoComma(left + (token + right))
    ensures NoComma(token)
  {
    assert forall i | 0 <= i < |token| :: token[i] == (left + (token + right))[|left| + i];
  }

  lemma Dissect(space: Space, part: string) returns (g: Segment)
    requires NoComma(part)
    ensures Printable(space, g) && Print(g) == part
  {
    hide StripLeft, StripRight;
    var left := PeelLeft(space, part);
    var middle := StripLeft(space, part);
    var right := PeelRight(space, middle);
    var token := StripRight(space, middle);
    if token == "" {
      assert middle == right;
      g := Noise(part);
    } else {
      assert token[0] == middle[0];
      InnerNoComma(left, token, right);
      g := Padded(left, token, right);
      assert left + token + right == left + (token + right);
    }
  }

  lemma {:induction false} NoFirstComma(raw: string, n: nat)
    requires n <= |raw| && forall i | 0 <= i < |raw| && raw[i] == ',' :: !NoComma(raw[..i])
    ensures NoComma(raw[..n])
  {
    if n > 0 {
      NoFirstComma(raw, n - 1);
      assert raw[..n] == raw[..n - 1] + [raw[n - 1]];
    }
  }

  lemma {:induction false} EverySettingIsPrinted(space: Space, raw: string) returns (gs: seq<Segment>)
    requires !space(',')
    ensures gs != [] && (forall g | g in gs :: Printable(space, g)) && PrintAll(gs) == raw
    decreases |raw|
  {
    if i :| 0 <= i < |raw| && raw[i] == ',' && NoComma(raw[..i]) {
      var g := Dissect(space, raw[..i]);
      var rest := EverySettingIsPrinted(space, raw[i + 1..]);
      gs := [g] + rest;
      assert gs[1..] == rest;
      assert raw == raw[..i] + "," + raw[i + 1..];
    } else {
      NoFirstComma(raw, |raw|);
      var g := Dissect(space, raw);
      gs := [g];
    }
  }

  /** The numbers come out in the order of the tokens, and one bad token rejects them all. */
  lemma {:induction false} ParseExact(number: string -> Option<int>, tokens: seq<string>)
    ensures var r := Parse(number, tokens);
            && (r.Some? <==> forall i | 0 <= i < |tokens| :: number(tokens[i]).Some?)
            && (r.Some? ==>
                  |r.value| == |tokens| && forall i | 0 <= i < |tokens| :: number(tokens[i]) == Some(r.value[i]))
  {
    if tokens != [] {
      var rest := tokens[1..];
      ParseExact(number, rest);
      assert forall i | 0 < i < |tokens| :: tokens[i] == rest[i - 1];
      assert (forall i | 0 <= i < |rest| :: number(rest[i]).Some?) <==>
             (forall i | 0 < i < |tokens| :: number(tokens[i]).Some?) by {
        assert forall i | 0 <= i < |rest| :: rest[i] == tokens[i + 1];
      }
    }
  }

  lemma {:induction false} PrintedAreTokens(space: Space, gs: seq<Segment>)
    requires forall g | g in gs :: Printable(space, g)
    ensures forall token | token in Printed(gs) :: IsToken(space, token)
  {
    if gs != [] {
      PrintedAreTokens(space, gs[1..]);
      assert Printable(space, gs[0]);
    }
  }

  /** A setting is accepted exactly when it has a token and every token is a number, and then its delays
      are the numbers of its tokens in their order. The tokens are nonblank, unpadded and comma-free. */
  lemma AcceptedDelays(space: Space, number: string -> Option<int>, raw: string)
    requires !space(',')
    ensures forall token | token in Tokens(space, raw) :: IsToken(space, token)
    ensures var tokens, r := Tokens(space, raw), RetryDelaysSeconds(space, number, raw);
            && (r.Numbers? <==> tokens != [] && forall i | 0 <= i < |tokens| :: number(tokens[i]).Some?)
            && (r.Numbers? ==>
                  |r.delays| == |tokens| && forall i | 0 <= i < |tokens| :: number(tokens[i]) == Some(r.delays[i]))
  {
    var gs := EverySettingIsPrinted(space, raw);
    TokensInvertPrinting(space, gs);
    PrintedAreTokens(space, gs);
    ParseExact(number, Tokens(space, raw));
  }
}
