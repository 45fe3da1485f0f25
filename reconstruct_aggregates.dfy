/**
 * The trajectory-path reader of `reconstruct_aggregates.py`: class `PathData`,
 * which reads a path file (one line per step, no header) into `stepDict`, a
 * dictionary from step number to the list of that step's model
 * configurations, and answers lookups into it.
 *
 * A line holds `numModels` position triples followed by `numModels`
 * rotation triples, all separated by single spaces. Tokens stay strings: the
 * source never converts them to numbers.
 */
module ReconstructAggregates {
  import opened PyStr

  type Token = string

  /** The errors Python raises on these paths. */
  datatype Error =
    | IndexError(index: nat)  // a list index at or past the end of the list
    | KeyError(key: nat)      // a step number that is not in `stepDict`

  datatype Result<+T> = Ok(value: T) | Err(error: Error) {
    predicate IsFailure() { Err? }
    function PropagateFailure<U>(): Result<U> requires Err? { Err(error) }
    function Extract(): T requires Ok? { value }
  }

  datatype Outcome = Pass | Fail(error: Error)

  /** A model's position `(x, y, z)`. */
  datatype Position = Position(x: Token, y: Token, z: Token)

  /** A model's rotation `(a, b, g)`. */
  datatype Rotation = Rotation(a: Token, b: Token, g: Token)

  /** One model's configuration, the 6-tuple `(x, y, z, a, b, g)`. There is no
      model number in it: a model is identified by its position in the list. */
  datatype Config = Config(x: Token, y: Token, z: Token, a: Token, b: Token, g: Token)

  /** Tuple concatenation `position + rotation`. */
  function Concat(p: Position, r: Rotation): Config {
    Config(p.x, p.y, p.z, r.a, r.b, r.g)
  }

  /** The list a line is cut into: the stripped line split on each single space. */
  function Tokens(line: string): seq<Token> {
    Split(Strip(line))
  }

  /** Python list indexing `items[index]` for a non-negative index. */
  function At(items: seq<Token>, index: nat): Result<Token> {
    if index < |items| then Ok(items[index]) else Err(IndexError(index))
  }

  /** How many times `range(0, numModels)` iterates. */
  function ModelCount(numModels: int): nat {
    if numModels < 0 then 0 else numModels
  }

  /** Model k's position: tokens 3k, 3k+1 and 3k+2. */
  function PositionAt(items: seq<Token>, k: nat): Position
    requires 3 * k + 2 < |items|
  {
    Position(items[3 * k], items[3 * k + 1], items[3 * k + 2])
  }

  /** Model k's rotation: tokens 3n+3k, 3n+3k+1 and 3n+3k+2, for n models. */
  function RotationAt(items: seq<Token>, n: nat, k: nat): Rotation
    requires 3 * n + 3 * k + 2 < |items|
  {
    Rotation(items[3 * n + 3 * k], items[3 * n + 3 * k + 1], items[3 * n + 3 * k + 2])
  }

  /** The configurations of `n` models read from `items`: entry k joins
      model k's position to model k's rotation. */
  function Configs(items: seq<Token>, n: nat): seq<Config>
    requires 6 * n <= |items|
  {
    seq(n, k requires 0 <= k < n => Concat(PositionAt(items, k), RotationAt(items, n, k)))
  }

  /** What `parse` returns or raises for a token list. Indices are read in
      increasing order, so the first one out of range is the list's length. */
  function ParsedTokens(items: seq<Token>, numModels: int): Result<seq<Config>> {
    var n := ModelCount(numModels);
    if |items| < 6 * n then Err(IndexError(|items|)) else Ok(Configs(items, n))
  }

  /** What `parse(line, numModels)` returns or raises. */
  function Parsed(line: string, numModels: int): Result<seq<Config>> {
    ParsedTokens(Tokens(line), numModels)
  }

  /** What `parse` makes of each line of a file, in order. */
  function ParsedLines(lines: seq<string>, numModels: int): (rs: seq<Result<seq<Config>>>)
    ensures |rs| == |lines|
  {
    seq(|lines|, i requires 0 <= i < |lines| => Parsed(lines[i], numModels))
  }

  /** The index of the first failed parse in `rs`, or `|rs|` when there is
      none: how many lines `readFile` stores. */
  function FirstError(rs: seq<Result<seq<Config>>>): (k: nat)
    ensures k <= |rs|
    ensures forall i :: 0 <= i < k ==> rs[i].Ok?
    ensures k < |rs| ==> rs[k].Err?
  {
    if rs == [] || rs[0].Err? then 0 else 1 + FirstError(rs[1..])
  }

  /** The table `readFile` builds from the first `count` parses, in the
      order it stores them: step i holds the configurations of line i. */
  function Steps(rs: seq<Result<seq<Config>>>, count: nat): map<nat, seq<Config>>
    requires count <= |rs|
    requires forall i :: 0 <= i < count ==> rs[i].Ok?
  {
    if count == 0 then map[] else Steps(rs, count - 1)[count - 1 := rs[count - 1].value]
  }

  /** The first failure is the only failure with no failure before it. */
  lemma {:induction false} FirstErrorAt(rs: seq<Result<seq<Config>>>, k: nat)
    requires k <= |rs|
    requires forall i :: 0 <= i < k ==> rs[i].Ok?
    requires k < |rs| ==> rs[k].Err?
    ensures FirstError(rs) == k
    decreases k
  {
    if k > 0 {
      assert rs[1..][k - 1..] == rs[k..];
      FirstErrorAt(rs[1..], k - 1);
    }
  }

  /** Storing one more line on top of an earlier table adds exactly its
      step and keeps every other entry. */
  lemma StepsNext(table: map<nat, seq<Config>>, rs: seq<Result<seq<Config>>>, count: nat)
    requires count < |rs|
    requires forall i :: 0 <= i <= count ==> rs[i].Ok?
    ensures (table + Steps(rs, count))[count := rs[count].value] == table + Steps(rs, count + 1)
  {
  }

  /** The stored steps are numbered 0 to `count - 1`, step i holding the
      configurations of line i. */
  lemma {:induction false} StepsAt(rs: seq<Result<seq<Config>>>, count: nat)
    requires count <= |rs|
    requires forall i :: 0 <= i < count ==> rs[i].Ok?
    ensures forall i: nat :: i in Steps(rs, count) <==> i < count
    ensures forall i: nat :: i < count ==> Steps(rs, count)[i] == rs[i].value
    decreases count
  {
    if count > 0 {
      StepsAt(rs, count - 1);
    }
  }

  /** Every line is stored exactly when every line parses. */
  lemma FirstErrorNone(rs: seq<Result<seq<Config>>>)
    ensures FirstError(rs) == |rs| <==> forall i :: 0 <= i < |rs| ==> rs[i].Ok?
  {
  }

  /** `parse` succeeds exactly when the stripped line has at least `6n - 1`
      spaces, `n` the model count; otherwise it fails at the index equal to
      the number of tokens. */
  lemma ParsedOutcome(line: string, numModels: int)
    ensures var count, n := Occurrences(Strip(line), ' ') + 1, ModelCount(numModels);
      && |Tokens(line)| == count
      && (Parsed(line, numModels).Ok? <==> 6 * n <= count)
      && (Parsed(line, numModels).Err? ==> Parsed(line, numModels).error == IndexError(count))
  {
    SplitCount(Strip(line));
  }

  /** A successful parse yields one configuration per model, and model k's
      fields are tokens 3k, 3k+1, 3k+2 followed by tokens 3n+3k, 3n+3k+1,
      3n+3k+2. */
  lemma ParsedFields(items: seq<Token>, numModels: int, k: nat)
    requires ParsedTokens(items, numModels).Ok?
    ensures var cs, n := ParsedTokens(items, numModels).value, ModelCount(numModels);
      && |cs| == n
      && 6 * n <= |items|
      && (k < n ==> cs[k] == Config(items[3 * k], items[3 * k + 1], items[3 * k + 2],
                                    items[3 * n + 3 * k], items[3 * n + 3 * k + 1], items[3 * n + 3 * k + 2]))
  {
  }

  /** Tokens past the first `6n` are never looked at. */
  lemma ParsedIgnoresTail(items: seq<Token>, other: seq<Token>, numModels: int)
    requires 6 * ModelCount(numModels) <= |items| && 6 * ModelCount(numModels) <= |other|
    requires items[..6 * ModelCount(numModels)] == other[..6 * ModelCount(numModels)]
    ensures ParsedTokens(items, numModels) == ParsedTokens(other, numModels)
  {
    var n := ModelCount(numModels);
    forall i | 0 <= i < 6 * n ensures items[i] == other[i] {
      assert items[i] == items[..6 * n][i];
      assert other[i] == other[..6 * n][i];
    }
    assert Configs(items, n) == Configs(other, n);
  }

  /** With no models, every line parses to the empty list. */
  lemma ParsedNoModels(line: string, numModels: int)
    requires numModels <= 0
    ensures Parsed(line, numModels) == Ok([])
  {
    assert Configs(Tokens(line), 0) == [];
  }

  /** Several spaces between two tokens yields empty tokens, shifting
      every later token: with a double space after the first token, token 1
      is the empty string and token 2 is what was meant as token 1. */
  lemma DoubleSpaceShifts(p: string, u: string, numModels: int)
    requires Word(p)
    ensures Split(p + "  " + u) == [p, ""] + Split(u)
    ensures Split(p + " " + u)[1..] == Split(p + "  " + u)[2..]
  {
    WordsNoSpace([p]);
    assert NoSpace([p][0]);
    DoubleSpace(p, u);
  }

  /** The position tokens of a list of configurations, model by model. */
  function Positions(cs: seq<Config>): (r: seq<Token>)
    ensures |r| == 3 * |cs|
  {
    if cs == [] then [] else [cs[0].x, cs[0].y, cs[0].z] + Positions(cs[1..])
  }

  /** The rotation tokens of a list of configurations, model by model. */
  function Rotations(cs: seq<Config>): (r: seq<Token>)
    ensures |r| == 3 * |cs|
  {
    if cs == [] then [] else [cs[0].a, cs[0].b, cs[0].g] + Rotations(cs[1..])
  }

  /** The tokens of a path-file line describing `cs`: every position, then
      every rotation. */
  function Fields(cs: seq<Config>): seq<Token> {
    Positions(cs) + Rotations(cs)
  }

  /** A path-file line describing `cs`, tokens joined by single spaces. */
  function Line(cs: seq<Config>): string
    requires |cs| >= 1
  {
    Join(Fields(cs))
  }

  /** Every field of `c` is a non-empty token without whitespace. */
  predicate WordConfig(c: Config) {
    Word(c.x) && Word(c.y) && Word(c.z) && Word(c.a) && Word(c.b) && Word(c.g)
  }

  /** Model k's position sits at tokens 3k, 3k+1 and 3k+2. */
  lemma {:induction false} PositionsAt(cs: seq<Config>, k: nat)
    requires k < |cs|
    ensures var r := Positions(cs);
      r[3 * k] == cs[k].x && r[3 * k + 1] == cs[k].y && r[3 * k + 2] == cs[k].z
    decreases k
  {
    if k > 0 {
      PositionsAt(cs[1..], k - 1);
      assert Positions(cs)[3..] == Positions(cs[1..]);
    }
  }

  /** Model k's rotation sits at tokens 3k, 3k+1 and 3k+2 of the rotations. */
  lemma {:induction false} RotationsAt(cs: seq<Config>, k: nat)
    requires k < |cs|
    ensures var r := Rotations(cs);
      r[3 * k] == cs[k].a && r[3 * k + 1] == cs[k].b && r[3 * k + 2] == cs[k].g
    decreases k
  {
    if k > 0 {
      RotationsAt(cs[1..], k - 1);
      assert Rotations(cs)[3..] == Rotations(cs[1..]);
    }
  }

  /** Every position token of word configurations is a word. */
  lemma {:induction false} PositionsWords(cs: seq<Config>)
    requires forall k :: 0 <= k < |cs| ==> WordConfig(cs[k])
    ensures forall i :: 0 <= i < |Positions(cs)| ==> Word(Positions(cs)[i])
  {
    if cs != [] {
      assert WordConfig(cs[0]);
      PositionsWords(cs[1..]);
    }
  }

  /** Every rotation token of word configurations is a word. */
  lemma {:induction false} RotationsWords(cs: seq<Config>)
    requires forall k :: 0 <= k < |cs| ==> WordConfig(cs[k])
    ensures forall i :: 0 <= i < |Rotations(cs)| ==> Word(Rotations(cs)[i])
  {
    if cs != [] {
      assert WordConfig(cs[0]);
      RotationsWords(cs[1..]);
    }
  }

  /** Reading back the tokens of `cs` gives `cs`. */
  lemma ConfigsFields(cs: seq<Config>)
    ensures Configs(Fields(cs), |cs|) == cs
  {
    var ts, n := Fields(cs), |cs|;
    forall k | 0 <= k < n ensures Configs(ts, n)[k] == cs[k] {
      PositionsAt(cs, k);
      RotationsAt(cs, k);
      assert ts[3 * k] == cs[k].x && ts[3 * k + 1] == cs[k].y && ts[3 * k + 2] == cs[k].z;
      assert ts[3 * n + 3 * k] == cs[k].a && ts[3 * n + 3 * k + 1] == cs[k].b;
      assert ts[3 * n + 3 * k + 2] == cs[k].g;
    }
  }

  /** `parse` inverts the path-file line format: a line describing `cs`
      with word-valued fields, with or without its newline, parses back to
      `cs` when read for `|cs|` models. */
  lemma ParseLine(cs: seq<Config>)
    requires |cs| >= 1
    requires forall k :: 0 <= k < |cs| ==> WordConfig(cs[k])
    ensures Parsed(Line(cs), |cs|) == Ok(cs)
    ensures Parsed(Line(cs) + "\n", |cs|) == Ok(cs)
  {
    var ts := Fields(cs);
    PositionsWords(cs);
    RotationsWords(cs);
    assert forall i :: 0 <= i < |ts| ==> Word(ts[i]) by {
      forall i | 0 <= i < |ts| ensures Word(ts[i]) {
        if i < |Positions(cs)| {
          assert ts[i] == Positions(cs)[i];
        } else {
          assert ts[i] == Rotations(cs)[i - |Positions(cs)|];
        }
      }
    }
    JoinWords(ts);
    assert Tokens(Line(cs)) == ts;
    assert Tokens(Line(cs) + "\n") == ts;
    ConfigsFields(cs);
  }

  /** Parses that all succeed, the i-th with `steps[i]`, fill the table
      with step i as `steps[i]`. */
  lemma StepsAllOk(rs: seq<Result<seq<Config>>>, steps: seq<seq<Config>>)
    requires |rs| == |steps|
    requires forall i :: 0 <= i < |rs| ==> rs[i] == Ok(steps[i])
    ensures FirstError(rs) == |rs|
    ensures Steps(rs, |rs|) == map i: nat | i < |steps| :: steps[i]
  {
    FirstErrorAt(rs, |rs|);
    StepsAt(rs, |rs|);
    var m := map i: nat | i < |steps| :: steps[i];
    assert forall i: nat :: i in m <==> i < |rs|;
  }

  /** A file whose line i describes `steps[i]` loads every line, step i
      as `steps[i]`. */
  lemma LoadLines(lines: seq<string>, steps: seq<seq<Config>>, n: nat)
    requires |lines| == |steps| && n >= 1
    requires forall i :: 0 <= i < |steps| ==> |steps[i]| == n && lines[i] == Line(steps[i]) + "\n"
    requires forall i, k :: 0 <= i < |steps| && 0 <= k < n ==> WordConfig(steps[i][k])
    ensures var rs := ParsedLines(lines, n);
      && FirstError(rs) == |lines|
      && Steps(rs, |lines|) == map i: nat | i < |steps| :: steps[i]
  {
    var rs := ParsedLines(lines, n);
    forall i | 0 <= i < |steps| ensures rs[i] == Ok(steps[i]) {
      var cs := steps[i];
      assert forall k :: 0 <= k < |cs| ==> WordConfig(cs[k]);
      ParseLine(cs);
      assert rs[i] == Parsed(Line(cs) + "\n", |cs|);
    }
    StepsAllOk(rs, steps);
  }

  class PathData {
    /** Step number to that step's list of model configurations. */
    var stepDict: map<nat, seq<Config>>

    /** `PathData(fname, numModels)`, over the file's lines: an empty table
        filled by `readFile`. */
    constructor (lines: seq<string>, numModels: int)
      ensures var rs := ParsedLines(lines, numModels);
        stepDict == Steps(rs, FirstError(rs))
    {
      stepDict := map[];
      new;
      var outcome := ReadFile(lines, numModels);
    }

    /** `readFile`: parses the lines in order, numbering them from 0, and
        stores each one's configurations under its number, overwriting that
        key and keeping every other. The first line that fails to parse stops
        it with that line's error, after the lines before it were stored. */
    method ReadFile(lines: seq<string>, numModels: int) returns (outcome: Outcome)
      modifies this
      ensures var rs := ParsedLines(lines, numModels); var k := FirstError(rs);
        && stepDict == old(stepDict) + Steps(rs, k)
        && (outcome.Pass? <==> k == |lines|)
        && (outcome.Fail? ==> outcome.error == rs[k].error)
    {
      ghost var rs := ParsedLines(lines, numModels);
      var stepID := 0;
      while stepID < |lines|
        invariant stepID <= |lines|
        invariant forall i :: 0 <= i < stepID ==> rs[i].Ok?
        invariant stepDict == old(stepDict) + Steps(rs, stepID)
      {
        var parsed := Parse(lines[stepID], numModels);
        assert parsed == rs[stepID];
        if parsed.Err? {
          FirstErrorAt(rs, stepID);
          return Fail(parsed.error);
        }
        StepsNext(old(stepDict), rs, stepID);
        stepDict := stepDict[stepID := parsed.value];
        stepID := stepID + 1;
      }
      FirstErrorAt(rs, |lines|);
      return Pass;
    }

    /** `parse`: strips and splits the line, collects the position triples,
        then the rotation triples, then joins them pairwise. Indexing past the
        end of the token list raises `IndexError`. */
    method Parse(line: string, numModels: int) returns (r: Result<seq<Config>>)
      ensures r == Parsed(line, numModels)
    {
      var items := Tokens(line);
      ghost var n := ModelCount(numModels);

      var positionList: seq<Position> := [];
      var receptorID := 0;
      var i := 0;
      while i < numModels
        invariant 0 <= i <= n && receptorID == i
        invariant 3 * i <= |items|
        invariant positionList == seq(i, k requires 0 <= k < i => PositionAt(items, k))
      {
        var xID := 3 * receptorID;
        var yID := xID + 1;
        var zID := xID + 2;
        var x :- At(items, xID);
        var y :- At(items, yID);
        var z :- At(items, zID);
        positionList := positionList + [Position(x, y, z)];
        receptorID := receptorID + 1;
        i := i + 1;
      }

      var rotationList: seq<Rotation> := [];
      var baseOffset := numModels * 3;
      assert i == n;
      var allergenID := 0;
      var j := 0;
      while j < numModels
        invariant 0 <= j <= n && allergenID == j
        invariant 3 * n + 3 * j <= |items|
        invariant rotationList == seq(j, k requires 0 <= k < j => RotationAt(items, n, k))
      {
        assert baseOffset == 3 * n;
        var aID := baseOffset + 3 * allergenID;
        var bID := aID + 1;
        var gID := aID + 2;
        var a :- At(items, aID);
        var b :- At(items, bID);
        var g :- At(items, gID);
        rotationList := rotationList + [Rotation(a, b, g)];
        allergenID := allergenID + 1;
        j := j + 1;
      }

      var modelConfigList: seq<Config> := [];
      var k := 0;
      while k < numModels
        invariant 0 <= k <= n
        invariant |modelConfigList| == k
        invariant forall m :: 0 <= m < k ==> modelConfigList[m] == Configs(items, n)[m]
      {
        modelConfigList := modelConfigList + [Concat(positionList[k], rotationList[k])];
        k := k + 1;
      }
      assert modelConfigList == Configs(items, n);
      return Ok(modelConfigList);
    }

    /** `getConfiguration`: model `modelID` of step `stepID`. */
    function GetConfiguration(stepID: nat, modelID: nat): (r: Result<Config>)
      reads this
    {
      if stepID !in stepDict then Err(KeyError(stepID))
      else if modelID < |stepDict[stepID]| then Ok(stepDict[stepID][modelID])
      else Err(IndexError(modelID))
    }

    /** `getConfiguration` on the table the constructor builds: step `s`,
        model `m` is found exactly when line `s` was stored and `m` is below
        the model count, and it then holds tokens 3m..3m+2 and 3n+3m..3n+3m+2
        of line `s`. A step that was not stored raises `KeyError`, a model
        past the end `IndexError`. */
    lemma LoadedConfiguration(lines: seq<string>, numModels: int, s: nat, m: nat)
      requires stepDict == Steps(ParsedLines(lines, numModels), FirstError(ParsedLines(lines, numModels)))
      ensures var k, n := FirstError(ParsedLines(lines, numModels)), ModelCount(numModels);
        && (GetConfiguration(s, m).Ok? <==> s < k && m < n)
        && (k <= s ==> GetConfiguration(s, m) == Err(KeyError(s)))
        && (s < k && n <= m ==> GetConfiguration(s, m) == Err(IndexError(m)))
        && (s < k && m < n ==> 6 * n <= |Tokens(lines[s])|)
        && (s < k && m < n ==> var t := Tokens(lines[s]);
              GetConfiguration(s, m) == Ok(Config(t[3 * m], t[3 * m + 1], t[3 * m + 2],
                                                  t[3 * n + 3 * m], t[3 * n + 3 * m + 1], t[3 * n + 3 * m + 2])))
    {
      var rs := ParsedLines(lines, numModels);
      var k := FirstError(rs);
      StepsAt(rs, k);
      if s < k {
        assert rs[s] == Parsed(lines[s], numModels);
        ParsedFields(Tokens(lines[s]), numModels, m);
      }
    }
  }
}
