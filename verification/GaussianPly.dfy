// packages/exportkit/ply.py: write_gaussian_ply and read_gaussian_ply_document. Values
// are opaque words of four bytes.
module GaussianPly {
  import opened Wrappers
  import opened FrameNames
  import opened Text
  import opened Ply

  type Word = string

  // One vertex: sh[k][c] is coefficient k of colour channel c.
  datatype Gaussian = Gaussian(
    mean: seq<Word>, logScale: seq<Word>, quat: seq<Word>, opacity: Word, sh: seq<seq<Word>>)

  datatype Document = Document(degree: nat, colorSpace: string, gaussians: seq<Gaussian>)

  datatype GaussianError =
    | Container(why: PlyError)
    | DegreeMismatch | BadColorSpace
    | CommentCount(key: string) | BadDeclaration(key: string) | BadDegree
    | BadLayout | BadNormals | BadValues

  // ------------------------------------------------------------------- the properties

  datatype Property = X | Y | Z | NX | NY | NZ | Dc(c: nat) | Rest(i: nat) | Opacity | Scale(i: nat) | Rot(i: nat)

  function Name(p: Property): string {
    match p
    case X => "x" case Y => "y" case Z => "z"
    case NX => "nx" case NY => "ny" case NZ => "nz"
    case Dc(c) => "f_dc_" + Decimal(c)
    case Rest(i) => "f_rest_" + Decimal(i)
    case Opacity => "opacity"
    case Scale(i) => "scale_" + Decimal(i)
    case Rot(i) => "rot_" + Decimal(i)
  }

  function Rests(n: nat): seq<Property> { if n == 0 then [] else Rests(n - 1) + [Rest(n - 1)] }

  // The number of coefficients beyond the first, per channel.
  function Higher(degree: nat): nat { (degree + 1) * (degree + 1) - 1 }

  // _gaussian_properties
  function Properties(degree: nat): seq<Property> {
    [X, Y, Z, NX, NY, NZ, Dc(0), Dc(1), Dc(2)] + Rests(3 * Higher(degree))
    + [Opacity, Scale(0), Scale(1), Scale(2), Rot(0), Rot(1), Rot(2), Rot(3)]
  }

  function Names(properties: seq<Property>): seq<string> {
    if properties == [] then [] else [Name(properties[0])] + Names(properties[1..])
  }

  function Columns(properties: seq<Property>): seq<Column> {
    if properties == [] then [] else [Column("float", Name(properties[0]))] + Columns(properties[1..])
  }

  // ------------------------------------------------------------------------- the rows

  const ZERO: Word := ['\U{0}', '\U{0}', '\U{0}', '\U{0}']
  const MINUS_ZERO: Word := ['\U{0}', '\U{0}', '\U{0}', '\U{80}']

  // One channel of the higher coefficients.
  function Channel(rest: seq<seq<Word>>, c: nat): seq<Word>
    requires forall k :: 0 <= k < |rest| ==> c < |rest[k]|
  {
    if rest == [] then [] else [rest[0][c]] + Channel(rest[1..], c)
  }

  // transpose(rest, (0, 2, 1)).reshape(n, -1): channel after channel.
  function Flattened(rest: seq<seq<Word>>): seq<Word>
    requires forall k :: 0 <= k < |rest| ==> |rest[k]| == 3
  {
    Channel(rest, 0) + Channel(rest, 1) + Channel(rest, 2)
  }

  predicate Shaped(g: Gaussian, degree: nat) {
    && |g.mean| == 3 && |g.logScale| == 3 && |g.quat| == 4 && |g.opacity| == 4
    && (forall i :: 0 <= i < 3 ==> |g.mean[i]| == 4 && |g.logScale[i]| == 4)
    && (forall i :: 0 <= i < 4 ==> |g.quat[i]| == 4)
    && |g.sh| == Higher(degree) + 1
    && forall k :: 0 <= k < |g.sh| ==> |g.sh[k]| == 3 && forall c :: 0 <= c < 3 ==> |g.sh[k][c]| == 4
  }

  function Nth(words: seq<Word>, i: nat): Word { if i < |words| then words[i] else "" }

  // The value that a property of a vertex is given.
  function WordOf(g: Gaussian, degree: nat, p: Property): Word
    requires Shaped(g, degree)
  {
    match p
    case X => g.mean[0] case Y => g.mean[1] case Z => g.mean[2]
    case NX => ZERO case NY => ZERO case NZ => ZERO
    case Dc(c) => Nth(g.sh[0], c)
    case Rest(i) => Nth(Flattened(g.sh[1..]), i)
    case Opacity => g.opacity
    case Scale(i) => Nth(g.logScale, i)
    case Rot(i) => Nth(g.quat, i)
  }

  function RowOf(g: Gaussian, degree: nat, properties: seq<Property>): Row
    requires Shaped(g, degree)
  {
    if properties == [] then [] else [WordOf(g, degree, properties[0])] + RowOf(g, degree, properties[1..])
  }

  function RowsOf(gs: seq<Gaussian>, degree: nat): seq<Row>
    requires forall g :: g in gs ==> Shaped(g, degree)
  {
    if gs == [] then [] else [RowOf(gs[0], degree, Properties(degree))] + RowsOf(gs[1..], degree)
  }

  // The value of a named property: fields of a vertex are read by name.
  function At(names: seq<string>, row: Row, name: string): Word
    requires |row| == |names|
  {
    if names == [] then "" else if names[0] == name then row[0] else At(names[1..], row[1..], name)
  }

  function Get(names: seq<string>, row: Row, p: Property): Word
    requires |row| == |names|
  {
    At(names, row, Name(p))
  }

  function RestWords(names: seq<string>, row: Row, n: nat): seq<Word>
    requires |row| == |names|
    ensures |RestWords(names, row, n)| == n
  {
    if n == 0 then [] else RestWords(names, row, n - 1) + [Get(names, row, Rest(n - 1))]
  }

  // transpose(flat.reshape(n, 3, high), (0, 2, 1)): coefficient after coefficient.
  function Unflattened(flat: seq<Word>, high: nat, from: nat): seq<seq<Word>>
    requires |flat| == 3 * high && from <= high
    decreases high - from
  {
    if from == high then []
    else [[flat[from], flat[high + from], flat[2 * high + from]]] + Unflattened(flat, high, from + 1)
  }

  function GaussianOf(names: seq<string>, row: Row, degree: nat): Gaussian
    requires |row| == |names|
  {
    var high := Higher(degree);
    Gaussian([Get(names, row, X), Get(names, row, Y), Get(names, row, Z)],
             [Get(names, row, Scale(0)), Get(names, row, Scale(1)), Get(names, row, Scale(2))],
             [Get(names, row, Rot(0)), Get(names, row, Rot(1)), Get(names, row, Rot(2)), Get(names, row, Rot(3))],
             Get(names, row, Opacity),
             [[Get(names, row, Dc(0)), Get(names, row, Dc(1)), Get(names, row, Dc(2))]]
             + Unflattened(RestWords(names, row, 3 * high), high, 0))
  }

  function NormalsOf(names: seq<string>, row: Row): seq<Word>
    requires |row| == |names|
  {
    [Get(names, row, NX), Get(names, row, NY), Get(names, row, NZ)]
  }

  lemma {:induction false} NamesAre(properties: seq<Property>)
    ensures |Names(properties)| == |properties| == |Columns(properties)|
    ensures forall i :: 0 <= i < |properties| ==> Names(properties)[i] == Name(properties[i])
    ensures forall i :: 0 <= i < |properties| ==> Columns(properties)[i] == Column("float", Name(properties[i]))
  {
    if properties != [] {
      NamesAre(properties[1..]);
    }
  }

  lemma {:induction false} RestsAre(n: nat)
    ensures |Rests(n)| == n && forall i :: 0 <= i < n ==> Rests(n)[i] == Rest(i)
  {
    if n > 0 {
      RestsAre(n - 1);
    }
  }

  // Which property comes where.
  lemma PropertiesAre(degree: nat)
    ensures var ps, n := Properties(degree), 3 * Higher(degree);
      && |ps| == n + 17
      && ps[..9] == [X, Y, Z, NX, NY, NZ, Dc(0), Dc(1), Dc(2)]
      && (forall i :: 0 <= i < n ==> ps[9 + i] == Rest(i))
      && ps[n + 9..] == [Opacity, Scale(0), Scale(1), Scale(2), Rot(0), Rot(1), Rot(2), Rot(3)]
  {
    RestsAre(3 * Higher(degree));
  }

  // ---------------------------------------------------------------- names are unique

  // The prefix of a name and the number behind it.
  function Stem(p: Property): string {
    match p
    case X => "x" case Y => "y" case Z => "z"
    case NX => "nx" case NY => "ny" case NZ => "nz"
    case Dc(_) => "f_dc_" case Rest(_) => "f_rest_"
    case Opacity => "opacity" case Scale(_) => "scale_" case Rot(_) => "rot_"
  }

  function Number(p: Property): Option<nat> {
    match p
    case Dc(c) => Some(c) case Rest(i) => Some(i) case Scale(i) => Some(i) case Rot(i) => Some(i)
    case _ => None
  }

  // The stems differ in their first, second or third character.
  function Mark(p: Property): char {
    match p
    case X => 'x' case Y => 'y' case Z => 'z'
    case NX => 'X' case NY => 'Y' case NZ => 'Z'
    case Dc(_) => 'd' case Rest(_) => 'f'
    case Opacity => 'o' case Scale(_) => 's' case Rot(_) => 'r'
  }

  function MarkOf(name: string): char
    requires name != "" && (name[0] == 'n' ==> |name| >= 2) && (name[0] == 'f' ==> |name| >= 3)
  {
    if name[0] == 'n' then (if name[1] == 'x' then 'X' else if name[1] == 'y' then 'Y' else 'Z')
    else if name[0] == 'f' then (if name[2] == 'd' then 'd' else 'f')
    else name[0]
  }

  lemma NameParts(p: Property)
    ensures Name(p) == Stem(p) + (match Number(p) case Some(i) => Decimal(i) case None => "")
  {
    hide Decimal;
    assert Number(p).None? ==> Stem(p) + "" == Stem(p);
  }

  lemma StemMarks(p: Property, rest: string)
    ensures var name := Stem(p) + rest;
      && name != "" && (name[0] == 'n' ==> |name| >= 2) && (name[0] == 'f' ==> |name| >= 3)
      && MarkOf(name) == Mark(p)
  {
  }

  lemma NameInjective(p: Property, q: Property)
    requires Name(p) == Name(q)
    ensures p == q
  {
    NameParts(p);
    NameParts(q);
    hide Decimal, Name, MarkOf;
    var a := match Number(p) case Some(i) => Decimal(i) case None => "";
    var b := match Number(q) case Some(i) => Decimal(i) case None => "";
    StemMarks(p, a);
    StemMarks(q, b);
    assert Mark(p) == Mark(q);
    MarksDecide(p, q);
    assert (Stem(p) + a)[|Stem(p)|..] == a && (Stem(q) + b)[|Stem(q)|..] == b;
    if Number(p).Some? {
      DecimalInjective(Number(p).value, Number(q).value);
    }
  }

  lemma MarksDecide(p: Property, q: Property)
    requires Mark(p) == Mark(q)
    ensures Stem(p) == Stem(q) && Number(p).Some? == Number(q).Some? && (Number(p) == Number(q) ==> p == q)
  {
  }

  // A field is read back as it was written.
  lemma {:induction false} GetBack(g: Gaussian, degree: nat, properties: seq<Property>, p: Property)
    requires Shaped(g, degree) && p in properties
    ensures |Names(properties)| == |RowOf(g, degree, properties)| == |properties|
    ensures Get(Names(properties), RowOf(g, degree, properties), p) == WordOf(g, degree, p)
  {
    hide Name, WordOf, Shaped;
    RowSizes(g, degree, properties);
    if Name(properties[0]) == Name(p) {
      NameInjective(properties[0], p);
    } else {
      assert p in properties[1..];
      GetBack(g, degree, properties[1..], p);
    }
  }

  lemma {:induction false} RowSizes(g: Gaussian, degree: nat, properties: seq<Property>)
    requires Shaped(g, degree)
    ensures |Names(properties)| == |RowOf(g, degree, properties)| == |properties|
    ensures forall i :: 0 <= i < |properties| ==> RowOf(g, degree, properties)[i] == WordOf(g, degree, properties[i])
  {
    if properties != [] {
      hide Name, WordOf, Shaped;
      RowSizes(g, degree, properties[1..]);
    }
  }

  function Position(p: Property, n: nat): nat {
    match p
    case X => 0 case Y => 1 case Z => 2 case NX => 3 case NY => 4 case NZ => 5
    case Dc(c) => 6 + c
    case Rest(i) => 9 + i
    case Opacity => n + 9
    case Scale(i) => n + 10 + i
    case Rot(i) => n + 13 + i
  }

  lemma PositionIs(degree: nat, i: nat)
    requires i < |Properties(degree)|
    ensures Position(Properties(degree)[i], 3 * Higher(degree)) == i
  {
    PropertiesAre(degree);
    var ps, n := Properties(degree), 3 * Higher(degree);
    hide Properties, Higher;
    if i < 9 {
      assert ps[i] == ps[..9][i];
    } else if i < n + 9 {
      var k := i - 9;
      assert ps[9 + k] == Rest(k);
    } else {
      assert ps[i] == ps[n + 9..][i - n - 9];
    }
  }

  lemma PropertiesDistinct(degree: nat)
    ensures var ps := Properties(degree); forall j, k :: 0 <= j < k < |ps| ==> ps[j] != ps[k]
  {
    forall j, k | 0 <= j < k < |Properties(degree)| ensures Properties(degree)[j] != Properties(degree)[k] {
      PositionIs(degree, j);
      PositionIs(degree, k);
    }
  }

  // ------------------------------------------------------ the order of the coefficients

  lemma {:induction false} ChannelIs(rest: seq<seq<Word>>, c: nat)
    requires forall k :: 0 <= k < |rest| ==> c < |rest[k]|
    ensures |Channel(rest, c)| == |rest| && forall k :: 0 <= k < |rest| ==> Channel(rest, c)[k] == rest[k][c]
  {
    if rest != [] {
      ChannelIs(rest[1..], c);
    }
  }

  // Coefficient k of channel c is number c * high + k of the flattened row.
  lemma FlattenedIs(rest: seq<seq<Word>>)
    requires forall k :: 0 <= k < |rest| ==> |rest[k]| == 3
    ensures |Flattened(rest)| == 3 * |rest|
    ensures forall k :: 0 <= k < |rest| ==>
      && Flattened(rest)[k] == rest[k][0]
      && Flattened(rest)[|rest| + k] == rest[k][1]
      && Flattened(rest)[2 * |rest| + k] == rest[k][2]
  {
    ChannelIs(rest, 0);
    ChannelIs(rest, 1);
    ChannelIs(rest, 2);
  }

  lemma {:induction false} UnflattenedIs(rest: seq<seq<Word>>, from: nat)
    requires from <= |rest| && (forall k :: 0 <= k < |rest| ==> |rest[k]| == 3)
    requires |Flattened(rest)| == 3 * |rest|
    ensures Unflattened(Flattened(rest), |rest|, from) == rest[from..]
    decreases |rest| - from
  {
    FlattenedIs(rest);
    if from < |rest| {
      UnflattenedIs(rest, from + 1);
      assert rest[from] == [rest[from][0], rest[from][1], rest[from][2]];
      assert rest[from..] == [rest[from]] + rest[from + 1..];
    }
  }

  // Transposing there and back is the identity: f_rest is a bijection.
  lemma TransposeRoundTrip(rest: seq<seq<Word>>)
    requires forall k :: 0 <= k < |rest| ==> |rest[k]| == 3
    ensures |Flattened(rest)| == 3 * |rest| && Unflattened(Flattened(rest), |rest|, 0) == rest
  {
    FlattenedIs(rest);
    UnflattenedIs(rest, 0);
    assert rest[0..] == rest;
  }

  // --------------------------------------------------------------- one vertex and back

  // The indices that occur in the properties.
  predicate Proper(p: Property, degree: nat) {
    match p
    case Dc(c) => c < 3
    case Rest(i) => i < 3 * Higher(degree)
    case Scale(i) => i < 3
    case Rot(i) => i < 4
    case _ => true
  }

  lemma PropertiesExactly(degree: nat, p: Property)
    ensures p in Properties(degree) <==> Proper(p, degree)
  {
    var n := 3 * Higher(degree);
    RestsAre(n);
    hide Higher;
    var first := [X, Y, Z, NX, NY, NZ, Dc(0), Dc(1), Dc(2)];
    var last := [Opacity, Scale(0), Scale(1), Scale(2), Rot(0), Rot(1), Rot(2), Rot(3)];
    assert p in Properties(degree) <==> p in first || p in Rests(n) || p in last;
    if p.Rest? && p.i < n {
      assert Rests(n)[p.i] == p;
    }
  }

  lemma FlatWord(g: Gaussian, degree: nat, i: nat)
    requires Shaped(g, degree) && i < 3 * Higher(degree)
    ensures |Flattened(g.sh[1..])| == 3 * Higher(degree) && |Flattened(g.sh[1..])[i]| == 4
  {
    var rest, high := g.sh[1..], Higher(degree);
    FlattenedIs(rest);
    hide Flattened, Higher;
    var c := if i < high then 0 else if i < 2 * high then 1 else 2;
    var k := i - c * high;
    assert Flattened(rest)[i] == rest[k][c] == g.sh[k + 1][c];
  }

  lemma WordFits(g: Gaussian, degree: nat, p: Property)
    requires Shaped(g, degree) && Proper(p, degree)
    ensures |WordOf(g, degree, p)| == 4
  {
    hide Flattened, Higher;
    if p.Rest? {
      FlatWord(g, degree, p.i);
    }
  }

  lemma RowFits(g: Gaussian, degree: nat)
    requires Shaped(g, degree)
    ensures Fits(Columns(Properties(degree)), RowOf(g, degree, Properties(degree)))
  {
    var ps := Properties(degree);
    NamesAre(ps);
    RowSizes(g, degree, ps);
    hide Properties, WordOf, Shaped, Name;
    assert SizeOf("float") == Some(4);
    forall i | 0 <= i < |ps| ensures |RowOf(g, degree, ps)[i]| == 4 {
      PropertiesExactly(degree, ps[i]);
      WordFits(g, degree, ps[i]);
    }
  }

  lemma GetWord(g: Gaussian, degree: nat, p: Property)
    requires Shaped(g, degree) && Proper(p, degree)
    ensures var ps := Properties(degree);
      && |Names(ps)| == |RowOf(g, degree, ps)|
      && Get(Names(ps), RowOf(g, degree, ps), p) == WordOf(g, degree, p)
  {
    PropertiesExactly(degree, p);
    GetBack(g, degree, Properties(degree), p);
  }

  lemma {:induction false} RestWordsAre(names: seq<string>, row: Row, n: nat)
    requires |row| == |names|
    ensures forall i :: 0 <= i < n ==> RestWords(names, row, n)[i] == Get(names, row, Rest(i))
  {
    if n > 0 {
      hide Get;
      RestWordsAre(names, row, n - 1);
    }
  }

  lemma RestWordsBack(g: Gaussian, degree: nat)
    requires Shaped(g, degree)
    ensures var names, row := Names(Properties(degree)), RowOf(g, degree, Properties(degree));
      |names| == |row| && RestWords(names, row, 3 * Higher(degree)) == Flattened(g.sh[1..])
  {
    GetWord(g, degree, X);
    RestWord(g, degree);
    hide Properties, Names, RowOf, Flattened, Get, Higher, WordOf, Shaped, RestWords;
    var names, row, n := Names(Properties(degree)), RowOf(g, degree, Properties(degree)), 3 * Higher(degree);
    RestWordsAre(names, row, n);
    forall i | 0 <= i < n ensures RestWords(names, row, n)[i] == Flattened(g.sh[1..])[i] {
      GetWord(g, degree, Rest(i));
    }
  }

  lemma RestWord(g: Gaussian, degree: nat)
    requires Shaped(g, degree)
    ensures |Flattened(g.sh[1..])| == 3 * Higher(degree)
    ensures forall i :: 0 <= i < 3 * Higher(degree) ==> WordOf(g, degree, Rest(i)) == Flattened(g.sh[1..])[i]
  {
    FlattenedIs(g.sh[1..]);
    hide Flattened, Higher;
  }

  lemma MeanBack(g: Gaussian, degree: nat)
    requires Shaped(g, degree)
    ensures var names, row := Names(Properties(degree)), RowOf(g, degree, Properties(degree));
      |names| == |row| && [Get(names, row, X), Get(names, row, Y), Get(names, row, Z)] == g.mean
  {
    hide Properties, Names, RowOf, Higher, Flattened, Get;
    GetWord(g, degree, X);
    GetWord(g, degree, Y);
    GetWord(g, degree, Z);
    assert g.mean == [g.mean[0], g.mean[1], g.mean[2]];
  }

  lemma ScaleBack(g: Gaussian, degree: nat)
    requires Shaped(g, degree)
    ensures var names, row := Names(Properties(degree)), RowOf(g, degree, Properties(degree));
      && |names| == |row|
      && [Get(names, row, Scale(0)), Get(names, row, Scale(1)), Get(names, row, Scale(2))] == g.logScale
  {
    hide Properties, Names, RowOf, Higher, Flattened, Get;
    GetWord(g, degree, Scale(0));
    GetWord(g, degree, Scale(1));
    GetWord(g, degree, Scale(2));
    assert g.logScale == [g.logScale[0], g.logScale[1], g.logScale[2]];
  }

  lemma QuatBack(g: Gaussian, degree: nat)
    requires Shaped(g, degree)
    ensures var names, row := Names(Properties(degree)), RowOf(g, degree, Properties(degree));
      && |names| == |row|
      && [Get(names, row, Rot(0)), Get(names, row, Rot(1)), Get(names, row, Rot(2)), Get(names, row, Rot(3))] == g.quat
  {
    hide Properties, Names, RowOf, Higher, Flattened, Get;
    GetWord(g, degree, Rot(0));
    GetWord(g, degree, Rot(1));
    GetWord(g, degree, Rot(2));
    GetWord(g, degree, Rot(3));
    assert g.quat == [g.quat[0], g.quat[1], g.quat[2], g.quat[3]];
  }

  lemma FirstBack(g: Gaussian, degree: nat)
    requires Shaped(g, degree)
    ensures var names, row := Names(Properties(degree)), RowOf(g, degree, Properties(degree));
      |names| == |row| && [Get(names, row, Dc(0)), Get(names, row, Dc(1)), Get(names, row, Dc(2))] == g.sh[0]
  {
    hide Properties, Names, RowOf, Higher, Flattened, Get;
    GetWord(g, degree, Dc(0));
    GetWord(g, degree, Dc(1));
    GetWord(g, degree, Dc(2));
    assert g.sh[0] == [g.sh[0][0], g.sh[0][1], g.sh[0][2]];
  }

  lemma NormalsBack(g: Gaussian, degree: nat)
    requires Shaped(g, degree)
    ensures var names, row := Names(Properties(degree)), RowOf(g, degree, Properties(degree));
      |names| == |row| && [Get(names, row, NX), Get(names, row, NY), Get(names, row, NZ)] == [ZERO, ZERO, ZERO]
  {
    hide Properties, Names, RowOf, Higher, Flattened, Get;
    GetWord(g, degree, NX);
    GetWord(g, degree, NY);
    GetWord(g, degree, NZ);
  }

  lemma HigherBack(g: Gaussian, degree: nat)
    requires Shaped(g, degree)
    ensures var names, row := Names(Properties(degree)), RowOf(g, degree, Properties(degree));
      |names| == |row| && Unflattened(RestWords(names, row, 3 * Higher(degree)), Higher(degree), 0) == g.sh[1..]
  {
    RestWordsBack(g, degree);
    TransposeRoundTrip(g.sh[1..]);
    hide Properties, Names, RowOf, Flattened, Get;
  }

  // Reading the row of a Gaussian gives back the Gaussian.
  lemma VertexRoundTrip(g: Gaussian, degree: nat)
    requires Shaped(g, degree)
    ensures |Names(Properties(degree))| == |RowOf(g, degree, Properties(degree))|
    ensures GaussianOf(Names(Properties(degree)), RowOf(g, degree, Properties(degree)), degree) == g
    ensures NormalsOf(Names(Properties(degree)), RowOf(g, degree, Properties(degree))) == [ZERO, ZERO, ZERO]
  {
    hide Properties, Names, RowOf, Higher, Flattened, Get, Unflattened, RestWords, WordOf;
    MeanBack(g, degree);
    ScaleBack(g, degree);
    QuatBack(g, degree);
    FirstBack(g, degree);
    NormalsBack(g, degree);
    HigherBack(g, degree);
    GetWord(g, degree, Opacity);
    OpacityWord(g, degree);
    assert g.sh == [g.sh[0]] + g.sh[1..];
  }

  lemma OpacityWord(g: Gaussian, degree: nat)
    requires Shaped(g, degree)
    ensures WordOf(g, degree, Opacity) == g.opacity
  {
  }

  // ----------------------------------------------------------------------- comments

  // _comment_value
  function ValuesOf(comments: seq<string>, key: string): seq<string> {
    if comments == [] then []
    else (if key + " " <= comments[0] then [After(comments[0], key + " ")] else []) + ValuesOf(comments[1..], key)
  }

  function CommentValue(comments: seq<string>, key: string): Result<string, GaussianError> {
    var values := ValuesOf(comments, key);
    if |values| != 1 then Err(CommentCount(key)) else Ok(values[0])
  }

  datatype Entry = Entry(key: string, value: string)

  function Rendered(entries: seq<Entry>): seq<string> {
    if entries == [] then [] else [entries[0].key + " " + entries[0].value] + Rendered(entries[1..])
  }

  // Two characters that tell the keys apart.
  predicate Long(key: string) { |key| > 3 }

  function Code(key: string): (char, char)
    requires Long(key)
  {
    (key[0], key[3])
  }

  predicate ToldApart(entries: seq<Entry>) {
    && (forall e :: e in entries ==> Long(e.key))
    && forall i, j :: 0 <= i < j < |entries| ==> Long(entries[i].key) && Long(entries[j].key) ==>
         Code(entries[i].key) != Code(entries[j].key)
  }

  lemma OtherKey(e: Entry, key: string)
    requires Long(e.key) && Long(key) && Code(e.key) != Code(key)
    ensures !(key + " " <= e.key + " " + e.value)
  {
    var comment := e.key + " " + e.value;
    assert comment[0] == e.key[0] && comment[3] == e.key[3];
    if key + " " <= comment {
      PrefixCode(key + " ", comment);
    }
  }

  lemma PrefixCode(p: string, s: string)
    requires p <= s && |p| > 3
    ensures |s| > 3 && p[0] == s[0] && p[3] == s[3]
  {
  }

  lemma OwnKey(e: Entry)
    ensures e.key + " " <= e.key + " " + e.value && After(e.key + " " + e.value, e.key + " ") == e.value
  {
  }

  lemma {:induction false} NoValue(entries: seq<Entry>, key: string)
    requires Long(key) && forall e :: e in entries ==> Long(e.key) && Code(e.key) != Code(key)
    ensures ValuesOf(Rendered(entries), key) == []
  {
    if entries != [] {
      OtherKey(entries[0], key);
      NoValue(entries[1..], key);
    }
  }

  lemma {:induction false} OneValue(entries: seq<Entry>, i: nat)
    requires ToldApart(entries) && i < |entries|
    ensures ValuesOf(Rendered(entries), entries[i].key) == [entries[i].value]
  {
    if i == 0 {
      OwnKey(entries[0]);
      NoValue(entries[1..], entries[0].key);
    } else {
      OtherKey(entries[0], entries[i].key);
      OneValue(entries[1..], i - 1);
    }
  }

  function Metadata(degree: nat, colorSpace: string): seq<Entry> {
    [Entry("gaussian_factory_format", "graphdeco-gs-v1"),
     Entry("sh_degree", Decimal(degree)),
     Entry("sh_basis", "graphdeco_real_sh"),
     Entry("sh_ordering", "degree_major_m_neg_to_pos"),
     Entry("sh_channel_order", "rgb"),
     Entry("f_rest_layout", "channel_major"),
     Entry("quaternion_order", "wxyz"),
     Entry("opacity_encoding", "logit"),
     Entry("scale_encoding", "natural_log"),
     Entry("color_space", colorSpace)]
  }

  function Codes(): seq<(char, char)> {
    [('g', 's'), ('s', 'd'), ('s', 'b'), ('s', 'o'), ('s', 'c'), ('f', 'e'), ('q', 't'), ('o', 'c'), ('s', 'l'),
     ('c', 'o')]
  }

  lemma CodesAre(degree: nat, colorSpace: string, i: nat)
    requires i < 10
    ensures |Metadata(degree, colorSpace)| == 10
    ensures Long(Metadata(degree, colorSpace)[i].key) && Code(Metadata(degree, colorSpace)[i].key) == Codes()[i]
  {
    hide Decimal;
  }

  lemma MetadataToldApart(degree: nat, colorSpace: string)
    ensures |Metadata(degree, colorSpace)| == 10 && ToldApart(Metadata(degree, colorSpace))
  {
    var m := Metadata(degree, colorSpace);
    forall i | 0 <= i < 10 ensures |m| == 10 && Long(m[i].key) && Code(m[i].key) == Codes()[i] {
      CodesAre(degree, colorSpace, i);
    }
    CodesAre(degree, colorSpace, 0);
    hide Metadata, Code, Long;
    assert forall i, j :: 0 <= i < j < 10 ==> Codes()[i] != Codes()[j];
  }

  lemma MetadataValues(degree: nat, colorSpace: string)
    ensures |Metadata(degree, colorSpace)| == 10
    ensures forall i :: 0 <= i < 10 ==>
      CommentValue(Rendered(Metadata(degree, colorSpace)), Metadata(degree, colorSpace)[i].key) ==
        Ok(Metadata(degree, colorSpace)[i].value)
  {
    MetadataToldApart(degree, colorSpace);
    hide Metadata, ToldApart, Rendered, ValuesOf;
    forall i | 0 <= i < 10
      ensures CommentValue(Rendered(Metadata(degree, colorSpace)), Metadata(degree, colorSpace)[i].key) ==
        Ok(Metadata(degree, colorSpace)[i].value)
    {
      OneValue(Metadata(degree, colorSpace), i);
    }
  }

  // ------------------------------------------------------------------------- writing

  predicate KnownColorSpace(s: string) { s == "linear_srgb" || s == "srgb" }

  function TableOf(gs: seq<Gaussian>, degree: nat, colorSpace: string): Table
    requires forall g :: g in gs ==> Shaped(g, degree)
  {
    Table(Columns(Properties(degree)), Rendered(Metadata(degree, colorSpace)), RowsOf(gs, degree))
  }

  // write_gaussian_ply, for the degree of a specification.
  function Write(gs: seq<Gaussian>, degree: nat, specDegree: nat, colorSpace: string): Result<string, GaussianError>
    requires forall g :: g in gs ==> Shaped(g, degree)
  {
    if degree != specDegree then Err(DegreeMismatch)
    else if !KnownColorSpace(colorSpace) then Err(BadColorSpace)
    else Ok(WriteTable(TableOf(gs, degree, colorSpace)))
  }

  // ------------------------------------------------------------------------- reading

  // The declarations that are checked one after the other.
  function Expected(): seq<Entry> {
    [Entry("gaussian_factory_format", "graphdeco-gs-v1"),
     Entry("sh_basis", "graphdeco_real_sh"),
     Entry("sh_ordering", "degree_major_m_neg_to_pos"),
     Entry("sh_channel_order", "rgb"),
     Entry("f_rest_layout", "channel_major"),
     Entry("quaternion_order", "wxyz"),
     Entry("opacity_encoding", "logit"),
     Entry("scale_encoding", "natural_log")]
  }

  function CheckDeclarations(comments: seq<string>, expected: seq<Entry>): Result<(), GaussianError> {
    if expected == [] then Ok(())
    else
      match CommentValue(comments, expected[0].key)
      case Err(e) => Err(e)
      case Ok(v) =>
        if v != expected[0].value then Err(BadDeclaration(expected[0].key))
        else CheckDeclarations(comments, expected[1..])
  }

  function ColorSpaceOf(comments: seq<string>): Result<string, GaussianError> {
    match CommentValue(comments, "color_space")
    case Err(e) => Err(e)
    case Ok(v) => if KnownColorSpace(v) then Ok(v) else Err(BadColorSpace)
  }

  function DegreeOf(comments: seq<string>): Result<nat, GaussianError> {
    match CommentValue(comments, "sh_degree")
    case Err(e) => Err(e)
    case Ok(v) =>
      var d := ParseInt(v);
      if d.None? || d.value < 0 || d.value > 3 then Err(BadDegree) else Ok(d.value)
  }

  function ColumnNames(columns: seq<Column>): seq<string> {
    if columns == [] then [] else [columns[0].name] + ColumnNames(columns[1..])
  }

  predicate AllFloats(columns: seq<Column>) { forall c :: c in columns ==> c.kind == "float" || c.kind == "float32" }

  function GaussiansOf(rows: seq<Row>, names: seq<string>, degree: nat): Result<seq<Gaussian>, GaussianError>
    decreases |rows|
  {
    if rows == [] then Ok([])
    else if |rows[0]| != |names| then Err(BadLayout)
    else if exists w :: w in NormalsOf(names, rows[0]) && w != ZERO && w != MINUS_ZERO then Err(BadNormals)
    else
      match GaussiansOf(rows[1..], names, degree)
      case Err(e) => Err(e)
      case Ok(more) => Ok([GaussianOf(names, rows[0], degree)] + more)
  }

  // read_gaussian_ply_document; `valid` are the value checks of GaussianTensors.
  function Read(file: string, valid: seq<Gaussian> -> bool): Result<Document, GaussianError> {
    match ReadHeader(file)
    case Err(e) => Err(Container(e))
    case Ok(o) => ReadOpened(o, valid)
  }

  function ReadOpened(o: Opened, valid: seq<Gaussian> -> bool): Result<Document, GaussianError> {
    match CheckDeclarations(o.header.comments, Expected())
    case Err(e) => Err(e)
    case Ok(_) =>
      match ColorSpaceOf(o.header.comments)
      case Err(e) => Err(e)
      case Ok(colorSpace) =>
        match DegreeOf(o.header.comments)
        case Err(e) => Err(e)
        case Ok(degree) => ReadValues(o, colorSpace, degree, valid)
  }

  function ReadValues(o: Opened, colorSpace: string, degree: nat, valid: seq<Gaussian> -> bool)
    : Result<Document, GaussianError>
  {
    var names := ColumnNames(o.header.columns);
    if names != Names(Properties(degree)) || !AllFloats(o.header.columns) then Err(BadLayout)
    else
      match ReadVertices(o)
      case Err(e) => Err(Container(e))
      case Ok(rows) =>
        match GaussiansOf(rows, names, degree)
        case Err(e) => Err(e)
        case Ok(gs) => if valid(gs) then Ok(Document(degree, colorSpace, gs)) else Err(BadValues)
  }

  // -------------------------------------------------------------------- the round trip

  lemma {:induction false} RowsFit(gs: seq<Gaussian>, degree: nat)
    requires forall g :: g in gs ==> Shaped(g, degree)
    ensures |RowsOf(gs, degree)| == |gs|
    ensures forall r :: r in RowsOf(gs, degree) ==> Fits(Columns(Properties(degree)), r)
  {
    hide Properties, RowOf, Shaped, Fits, Columns;
    if gs != [] {
      assert gs[0] in gs;
      RowsFit(gs[1..], degree);
      RowFits(gs[0], degree);
    }
  }

  lemma {:induction false} RowsBack(gs: seq<Gaussian>, degree: nat)
    requires forall g :: g in gs ==> Shaped(g, degree)
    ensures GaussiansOf(RowsOf(gs, degree), Names(Properties(degree)), degree) == Ok(gs)
  {
    hide Properties, Names, RowOf, GaussianOf, NormalsOf, Shaped;
    if gs != [] {
      assert gs[0] in gs;
      RowsBack(gs[1..], degree);
      VertexRoundTrip(gs[0], degree);
      assert RowsOf(gs, degree)[1..] == RowsOf(gs[1..], degree);
      assert gs == [gs[0]] + gs[1..];
    }
  }

  lemma {:induction false} ColumnNamesBack(properties: seq<Property>)
    ensures ColumnNames(Columns(properties)) == Names(properties) && AllFloats(Columns(properties))
  {
    if properties != [] {
      hide Name;
      ColumnNamesBack(properties[1..]);
    }
  }

  lemma NameIsGood(p: Property)
    ensures Name(p) != "" && Solid(Name(p)) && Ascii(Name(p))
  {
    NameParts(p);
    if Number(p).Some? {
      DecimalIsDigits(Number(p).value);
    }
    hide Decimal, Name;
  }

  lemma ColumnsAreGood(degree: nat)
    ensures var cs := Columns(Properties(degree)); cs != [] && UniqueNames(cs) && forall c :: c in cs ==> Named(c)
  {
    var ps := Properties(degree);
    NamesAre(ps);
    PropertiesDistinct(degree);
    PropertiesAre(degree);
    hide Properties, Name, Higher;
    forall i, j | 0 <= i < j < |ps| ensures Name(ps[i]) != Name(ps[j]) {
      if Name(ps[i]) == Name(ps[j]) {
        NameInjective(ps[i], ps[j]);
      }
    }
    forall i | 0 <= i < |ps| ensures Named(Columns(ps)[i]) {
      NameIsGood(ps[i]);
    }
  }

  lemma PlainFormat()
    ensures Plain("gaussian_factory_format")
    ensures Plain("graphdeco-gs-v1")
    ensures Plain("graphdeco_real_sh")
  {
  }

  lemma PlainHarmonics()
    ensures Plain("sh_degree")
    ensures Plain("sh_basis")
    ensures Plain("sh_ordering")
    ensures Plain("degree_major_m_neg_to_pos")
  {
  }

  lemma PlainOrders()
    ensures Plain("sh_channel_order")
    ensures Plain("rgb")
    ensures Plain("quaternion_order")
    ensures Plain("wxyz")
  {
  }

  lemma PlainLayout()
    ensures Plain("f_rest_layout")
    ensures Plain("channel_major")
  {
  }

  lemma PlainEncodings()
    ensures Plain("opacity_encoding")
    ensures Plain("logit")
    ensures Plain("scale_encoding")
    ensures Plain("natural_log")
  {
  }

  lemma PlainColors()
    ensures Plain("color_space")
    ensures Plain("linear_srgb")
    ensures Plain("srgb")
  {
  }

  lemma {:induction false} RenderedPlain(entries: seq<Entry>)
    requires forall e :: e in entries ==> Plain(e.key) && Plain(e.value)
    ensures forall c :: c in Rendered(entries) ==> Plain(c)
  {
    if entries != [] {
      RenderedPlain(entries[1..]);
      assert entries[0] in entries;
    }
  }

  lemma DecimalIsPlain(n: nat)
    ensures Plain(Decimal(n))
  {
    DecimalIsDigits(n);
  }

  lemma MetadataPlain(degree: nat, colorSpace: string)
    requires KnownColorSpace(colorSpace)
    ensures forall c :: c in Rendered(Metadata(degree, colorSpace)) ==> Plain(c)
  {
    hide Plain, Decimal;
    PlainFormat();
    PlainHarmonics();
    PlainOrders();
    PlainLayout();
    PlainEncodings();
    PlainColors();
    DecimalIsPlain(degree);
    RenderedPlain(Metadata(degree, colorSpace));
  }

  lemma TableIsWritable(gs: seq<Gaussian>, degree: nat, colorSpace: string)
    requires gs != [] && (forall g :: g in gs ==> Shaped(g, degree)) && KnownColorSpace(colorSpace)
    ensures Writable(TableOf(gs, degree, colorSpace))
  {
    ColumnsAreGood(degree);
    MetadataPlain(degree, colorSpace);
    RowsFit(gs, degree);
  }

  lemma ExpectedIn(degree: nat, colorSpace: string, i: nat)
    requires i < 8
    ensures |Expected()| == 8 && |Metadata(degree, colorSpace)| == 10
    ensures Metadata(degree, colorSpace)[if i == 0 then 0 else i + 1] == Expected()[i]
  {
    hide Decimal;
  }

  lemma SpecialIn(degree: nat, colorSpace: string)
    ensures |Metadata(degree, colorSpace)| == 10
    ensures Metadata(degree, colorSpace)[1] == Entry("sh_degree", Decimal(degree))
    ensures Metadata(degree, colorSpace)[9] == Entry("color_space", colorSpace)
  {
    hide Decimal;
  }

  lemma DeclarationsBack(degree: nat, colorSpace: string)
    requires KnownColorSpace(colorSpace) && degree <= 3
    ensures var comments := Rendered(Metadata(degree, colorSpace));
      && CheckDeclarations(comments, Expected()) == Ok(())
      && ColorSpaceOf(comments) == Ok(colorSpace) && DegreeOf(comments) == Ok(degree)
  {
    hide Decimal, ParseInt, Rendered, CommentValue, Metadata, Expected, CheckDeclarations;
    var comments := Rendered(Metadata(degree, colorSpace));
    MetadataValues(degree, colorSpace);
    ParseDecimal(degree);
    SpecialIn(degree, colorSpace);
    ExpectedIn(degree, colorSpace, 0);
    forall i | 0 <= i < 8 ensures CommentValue(comments, Expected()[i].key) == Ok(Expected()[i].value) {
      ExpectedIn(degree, colorSpace, i);
    }
    AllDeclared(comments, Expected());
  }

  lemma {:induction false} AllDeclared(comments: seq<string>, expected: seq<Entry>)
    requires forall i :: 0 <= i < |expected| ==> CommentValue(comments, expected[i].key) == Ok(expected[i].value)
    ensures CheckDeclarations(comments, expected) == Ok(())
  {
    if expected != [] {
      AllDeclared(comments, expected[1..]);
    }
  }

  // For every number of vertices, degree 0 to 3 and colour space: what is written is
  // read back with the same tensors and metadata, exactly when its header is within the
  // limit of the reader.
  lemma GaussianRoundTrip(gs: seq<Gaussian>, degree: nat, colorSpace: string, valid: seq<Gaussian> -> bool)
    requires gs != [] && degree <= 3 && KnownColorSpace(colorSpace) && valid(gs)
    requires forall g :: g in gs ==> Shaped(g, degree)
    ensures Write(gs, degree, degree, colorSpace).Ok?
    ensures Read(Write(gs, degree, degree, colorSpace).value, valid) ==
      if |Joined(HeaderLines(TableOf(gs, degree, colorSpace)))| <= MAX_HEADER_BYTES
      then Ok(Document(degree, colorSpace, gs))
      else Err(Container(HeaderTooLong))
  {
    var t := TableOf(gs, degree, colorSpace);
    TableIsWritable(gs, degree, colorSpace);
    HeaderRoundTrip(t, RowsBytes(t.rows));
    VerticesRoundTrip(t);
    DeclarationsBack(degree, colorSpace);
    ColumnNamesBack(Properties(degree));
    RowsFit(gs, degree);
    RowsBack(gs, degree);
    hide Metadata, Properties, Rendered, RowsOf, GaussiansOf, Names, Columns, ReadHeader, ReadVertices, HeaderLines;
  }

  // ------------------------------------------------------------ the limit on the header

  lemma {:induction false} JoinedBound(lines: seq<string>, m: nat)
    requires forall l :: l in lines ==> |l| <= m
    ensures |Joined(lines)| <= Times(|lines|, m + 1)
  {
    if lines != [] {
      assert lines[0] in lines;
      JoinedBound(lines[1..], m);
    }
  }

  lemma {:induction false} JoinedAppend(a: seq<string>, b: seq<string>)
    ensures |Joined(a + b)| == |Joined(a)| + |Joined(b)|
  {
    if a == [] {
      assert a + b == b;
    } else {
      assert (a + b)[0] == a[0] && (a + b)[1..] == a[1..] + b;
      JoinedAppend(a[1..], b);
    }
  }

  lemma NameIsShort(p: Property, degree: nat)
    requires Proper(p, degree) && degree <= 3
    ensures |Name(p)| <= 10
  {
    NameParts(p);
    if Number(p).Some? {
      DecimalIsDigits(Number(p).value);
      assert Power(2) == 100 && Higher(degree) <= 15;
      DigitsAtMost(Number(p).value, 2);
    }
    hide Decimal, Name;
  }

  lemma {:induction false} ColumnLinesShort(properties: seq<Property>, degree: nat)
    requires degree <= 3 && forall p :: p in properties ==> Proper(p, degree)
    ensures |ColumnLines(Columns(properties))| == |properties|
    ensures forall l :: l in ColumnLines(Columns(properties)) ==> |l| <= 50
  {
    if properties != [] {
      hide Name, Proper;
      ColumnLinesShort(properties[1..], degree);
      assert properties[0] in properties;
      NameIsShort(properties[0], degree);
    }
  }

  lemma {:induction false} CommentLinesShort(entries: seq<Entry>)
    requires forall e :: e in entries ==> |e.key| <= 30 && |e.value| <= 30
    ensures |CommentLines(Rendered(entries))| == |entries|
    ensures forall l :: l in CommentLines(Rendered(entries)) ==> |l| <= 70
  {
    if entries != [] {
      CommentLinesShort(entries[1..]);
      assert entries[0] in entries;
    }
  }

  lemma MetadataShort(degree: nat, colorSpace: string)
    requires degree <= 3 && KnownColorSpace(colorSpace)
    ensures |Metadata(degree, colorSpace)| == 10
    ensures forall e :: e in Metadata(degree, colorSpace) ==> |e.key| <= 30 && |e.value| <= 30
  {
    DecimalIsDigits(degree);
    hide Decimal;
  }

  lemma HeaderLength(t: Table)
    ensures |Joined(HeaderLines(t))| ==
      48 + |Joined(CommentLines(t.comments))| + |ElementLine(|t.rows|)| + |Joined(ColumnLines(t.columns))|
  {
    hide ElementLine, CommentLines, ColumnLines;
    var first, last := ["ply", "format binary_little_endian 1.0"], ["end_header"];
    var comments, element, columns := CommentLines(t.comments), [ElementLine(|t.rows|)], ColumnLines(t.columns);
    assert HeaderLines(t) == first + ((comments + (element + columns)) + last);
    JoinedAppend(first, (comments + (element + columns)) + last);
    JoinedAppend(comments + (element + columns), last);
    JoinedAppend(comments, element + columns);
    JoinedAppend(element, columns);
    FixedLengths();
    assert element[1..] == [] && Joined([]) == "";
  }

  lemma FixedLengths()
    ensures |Joined(["ply", "format binary_little_endian 1.0"])| == 36 && |Joined(["end_header"])| == 11
  {
    assert ["ply", "format binary_little_endian 1.0"][1..] == ["format binary_little_endian 1.0"];
    assert ["format binary_little_endian 1.0"][1..] == [] && ["end_header"][1..] == [];
  }

  lemma CommentsAreShort(degree: nat, colorSpace: string)
    requires degree <= 3 && KnownColorSpace(colorSpace)
    ensures |Joined(CommentLines(Rendered(Metadata(degree, colorSpace))))| <= 710
  {
    MetadataShort(degree, colorSpace);
    CommentLinesShort(Metadata(degree, colorSpace));
    hide Metadata, Rendered, CommentLines;
    JoinedBound(CommentLines(Rendered(Metadata(degree, colorSpace))), 70);
    TimesIsProduct(10, 71);
  }

  lemma PropertyCount(degree: nat)
    requires degree <= 3
    ensures |Properties(degree)| <= 62
  {
    PropertiesAre(degree);
    hide Properties;
    if degree == 0 {
    } else if degree == 1 {
    } else if degree == 2 {
    }
  }

  lemma {:induction false} TimesMonotone(a: nat, b: nat, n: nat)
    requires a <= b
    ensures Times(a, n) <= Times(b, n)
  {
    if a > 0 {
      TimesMonotone(a - 1, b - 1, n);
    }
  }

  lemma ColumnsAreShort(degree: nat)
    requires degree <= 3
    ensures |Joined(ColumnLines(Columns(Properties(degree))))| <= 62 * 51
  {
    forall p | p in Properties(degree) ensures Proper(p, degree) {
      PropertiesExactly(degree, p);
    }
    PropertyCount(degree);
    hide Properties, Columns, ColumnLines, Higher, Proper, Times;
    ColumnLinesShort(Properties(degree), degree);
    JoinedBound(ColumnLines(Columns(Properties(degree))), 50);
    TimesMonotone(|Properties(degree)|, 62, 51);
    TimesIsProduct(62, 51);
  }

  // With fewer than 10^1000000 vertices the header is within the limit.
  lemma HeaderIsShort(gs: seq<Gaussian>, degree: nat, colorSpace: string)
    requires degree <= 3 && KnownColorSpace(colorSpace) && forall g :: g in gs ==> Shaped(g, degree)
    requires |gs| < Power(1000000)
    ensures |Joined(HeaderLines(TableOf(gs, degree, colorSpace)))| <= MAX_HEADER_BYTES
  {
    hide Power, Shaped, RowOf, Metadata, Properties, Columns, Rendered, HeaderLines, Joined, CommentLines, ColumnLines,
      ElementLine;
    RowsFit(gs, degree);
    HeaderLength(TableOf(gs, degree, colorSpace));
    CommentsAreShort(degree, colorSpace);
    ColumnsAreShort(degree);
    ElementIsShort(|gs|);
  }

  lemma ElementIsShort(count: nat)
    requires count < Power(1000000)
    ensures |ElementLine(count)| <= 1000050
  {
    DigitsAtMost(count, 1000000);
    DecimalIsDigits(count);
    hide Decimal;
  }
}
