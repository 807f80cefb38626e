/** The hashing layer of the integrity plane.

SHA-256 is a parameter of every definition, and nothing is assumed about it. What it is applied to
is one of three shapes: nothing (the empty tree), a raw log behind the leaf prefix, or two digests
behind the node prefix. A `Sha` value is a function on those shapes; `Encode` gives the byte string
each one stands for, and different shapes stand for different byte strings.

Every soundness statement concludes with an alternative, `Collide`, which names two explicit finite
sets of inputs that were really hashed and says that two different ones, one from each set, have
the same digest. */
module Hashing {

  type Byte = b: int | 0 <= b < 256
  type Bytes = seq<Byte>

  datatype Hash = Hash(bytes: Bytes)
  type Digest = h: Hash | |h.bytes| == 32 witness Hash(seq(32, _ => 0))

  datatype Input = EmptyInput | LeafInput(data: Bytes) | NodeInput(left: Digest, right: Digest)

  type Sha = Input -> Digest

  const LEAF_PREFIX: Byte := 0
  const NODE_PREFIX: Byte := 1

  /** The byte string that is fed to SHA-256. */
  function Encode(x: Input): Bytes {
    match x
    case EmptyInput => []
    case LeafInput(data) => [LEAF_PREFIX] + data
    case NodeInput(left, right) => [NODE_PREFIX] + left.bytes + right.bytes
  }

  /** The prefixes and the fixed digest width keep all inputs apart, so a collision between two
  inputs is a collision of SHA-256 itself. */
  lemma EncodeInjective(x: Input, y: Input)
    requires x != y
    ensures Encode(x) != Encode(y)
  {
    var b, c := Encode(x), Encode(y);
    match (x, y) {
      case (NodeInput(l, r), NodeInput(l', r')) =>
        assert b[1..33] == l.bytes && b[33..] == r.bytes;
        assert c[1..33] == l'.bytes && c[33..] == r'.bytes;
      case (LeafInput(d), LeafInput(d')) => assert b[1..] == d && c[1..] == d';
      case (LeafInput(_), NodeInput(_, _)) => assert b[0] != c[0];
      case (NodeInput(_, _), LeafInput(_)) => assert b[0] != c[0];
      case _ => assert |b| != |c|;
    }
  }

  function HashLeaf(sha: Sha, data: Bytes): Digest {
    sha(LeafInput(data))
  }

  function HashChildren(sha: Sha, left: Digest, right: Digest): Digest {
    sha(NodeInput(left, right))
  }

  function EmptyTreeHash(sha: Sha): Digest {
    sha(EmptyInput)
  }

  /** Some input of `xs` and a different input of `ys` have the same digest. */
  ghost predicate Collide(sha: Sha, xs: set<Input>, ys: set<Input>) {
    exists x, y :: x in xs && y in ys && x != y && sha(x) == sha(y)
  }

  /** A collision between inputs is a pair of different byte strings with one SHA-256 digest. */
  lemma CollisionIsReal(sha256: Bytes -> Digest, xs: set<Input>, ys: set<Input>)
    requires Collide(x => sha256(Encode(x)), xs, ys)
    ensures exists x, y :: x in xs && y in ys && Encode(x) != Encode(y) && sha256(Encode(x)) == sha256(Encode(y))
  {
    var sha := x => sha256(Encode(x));
    var x, y :| x in xs && y in ys && x != y && sha(x) == sha(y);
    EncodeInjective(x, y);
  }

  /** A collision in small sets is one in larger sets. */
  lemma CollideWiden(sha: Sha, xs: set<Input>, ys: set<Input>, xs': set<Input>, ys': set<Input>)
    requires xs <= xs' && ys <= ys'
    ensures Collide(sha, xs, ys) ==> Collide(sha, xs', ys')
  {}

  /** Two node hashes that agree either agree on both children or exhibit a collision. */
  lemma NodeHashesAgree(sha: Sha, a: Digest, b: Digest, c: Digest, d: Digest, xs: set<Input>, ys: set<Input>)
    requires HashChildren(sha, a, b) == HashChildren(sha, c, d)
    requires NodeInput(a, b) in xs && NodeInput(c, d) in ys
    ensures (a == c && b == d) || Collide(sha, xs, ys)
  {}
}
