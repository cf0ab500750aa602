/** The Bloom filter in front of the exact store, and the plain set they refine. */
module Index {
  import opened Bytes
  import Hex
  import Padding
  import Sha256

  /** Bit positions of an item: the leading words of its digest modulo the filter size. */
  function Positions(item: Str, size: nat, hashes: nat): (p: seq<nat>)
    requires size > 0
    ensures |p| == (if hashes < 8 then hashes else 8) && forall i :: 0 <= i < |p| ==> p[i] < size
  {
    seq(if hashes < 8 then hashes else 8, i requires 0 <= i < 8 => Sha256.Values(Sha256.WrappedDigest(item))[i] % size)
  }

  /** For items of less than 4 gigabytes these are the words of FIPS 180-4. */
  lemma PositionsAreDigestWords(item: Str, size: nat, hashes: nat, i: nat)
    requires size > 0 && i < hashes && i < 8 && |Padding.Pad(item)| <= TWO_32
    ensures Positions(item, size, hashes)[i] == Sha256.Values(Sha256.Digest(item))[i] % size
  {
    hide Sha256.Digest, Sha256.WrappedDigest, Padding.Pad, Sha256.Values;
    Sha256.DigestExact(item);
  }

  /** Bit `b` is one of the positions of some item. */
  ghost predicate Hit(items: set<Str>, b: nat, size: nat, hashes: nat)
    requires size > 0
  {
    exists item :: item in items && b in Positions(item, size, hashes)
  }

  datatype QueryResult = DefinitelyNo | ProbablyYes | DefinitelyYes

  /** The answer a set of inserted items calls for. */
  ghost function Answer(items: set<Str>, item: Str, size: nat, hashes: nat): QueryResult
    requires size > 0
  {
    if item in items then DefinitelyYes
    else if forall b :: b in Positions(item, size, hashes) ==> Hit(items, b, size, hashes) then ProbablyYes
    else DefinitelyNo
  }

  /** Yes is certain exactly for stored items; no is certain exactly when some position of
      the item is a position of no stored item. */
  lemma AnswerExactly(items: set<Str>, item: Str, size: nat, hashes: nat)
    requires size > 0
    ensures Answer(items, item, size, hashes) == DefinitelyYes <==> item in items
    ensures Answer(items, item, size, hashes) == DefinitelyNo
       <==> exists b :: b in Positions(item, size, hashes)
                        && forall i :: i in items ==> b !in Positions(i, size, hashes)
  {
    hide Positions;
    if item in items {
      assert forall b :: b in Positions(item, size, hashes) ==> Hit(items, b, size, hashes);
    }
  }

  /** An empty index rules every item out. */
  lemma EmptyAnswersNo(item: Str, size: nat, hashes: nat)
    requires size > 0 && hashes > 0
    ensures Answer({}, item, size, hashes) == DefinitelyNo
  {
    hide Positions;
    assert Positions(item, size, hashes)[0] in Positions(item, size, hashes);
    AnswerExactly({}, item, size, hashes);
  }

  function Rank(r: QueryResult): nat {
    match r
    case DefinitelyNo => 0
    case ProbablyYes => 1
    case DefinitelyYes => 2
  }

  /** Inserting more never turns an answer back towards no. */
  lemma AnswerMonotone(items: set<Str>, more: set<Str>, item: Str, size: nat, hashes: nat)
    requires size > 0
    ensures Rank(Answer(items, item, size, hashes)) <= Rank(Answer(items + more, item, size, hashes))
  {
    hide Positions;
    forall b | Hit(items, b, size, hashes)
      ensures Hit(items + more, b, size, hashes)
    {
      var i :| i in items && b in Positions(i, size, hashes);
      assert i in items + more;
    }
  }

  class BloomFilter {
    const bits: array<bool>
    const numHashes: nat

    constructor (sizeInBits: nat, numHashes: nat)
      requires sizeInBits > 0
      ensures bits.Length == sizeInBits && this.numHashes == numHashes && fresh(bits)
      ensures forall b :: 0 <= b < sizeInBits ==> !bits[b]
    {
      bits := new bool[sizeInBits](_ => false);
      this.numHashes := numHashes;
    }

    method Hash(item: Str) returns (hashes: seq<nat>)
      requires bits.Length > 0
      ensures hashes == Positions(item, bits.Length, numHashes)
    {
      hide Sha256.WrappedDigest, Sha256.Values, Hex.WordsText, Hex.ParseHex;
      hashes := [];
      var hex := Sha256.Sha256(item);
      ghost var words := Sha256.Values(Sha256.WrappedDigest(item));
      var i := 0;
      while i < numHashes && i < 8
        invariant 0 <= i <= 8 && i <= numHashes
        invariant hashes == Positions(item, bits.Length, numHashes)[..i]
      {
        var chunk := hex[i * 8..i * 8 + 8];
        Hex.ParseChunk(words, i);
        var h := Hex.ParseHex(chunk);
        hashes := hashes + [h % bits.Length];
        i := i + 1;
      }
    }

    method Add(item: Str)
      requires bits.Length > 0
      modifies bits
      ensures forall b :: 0 <= b < bits.Length ==>
                            (bits[b] <==> old(bits[b]) || b in Positions(item, bits.Length, numHashes))
    {
      hide Positions;
      var hashes := Hash(item);
      for i := 0 to |hashes|
        invariant forall b :: 0 <= b < bits.Length ==> (bits[b] <==> old(bits[b]) || b in hashes[..i])
      {
        bits[hashes[i]] := true;
        assert hashes[..i + 1] == hashes[..i] + [hashes[i]];
      }
      assert hashes[..|hashes|] == hashes;
    }

    method PossiblyContains(item: Str) returns (r: bool)
      requires bits.Length > 0
      ensures r <==> forall i :: 0 <= i < |Positions(item, bits.Length, numHashes)|
                                 ==> bits[Positions(item, bits.Length, numHashes)[i]]
    {
      hide Positions;
      var hashes := Hash(item);
      for i := 0 to |hashes|
        invariant forall j :: 0 <= j < i ==> bits[hashes[j]]
      {
        if !bits[hashes[i]] {
          return false;
        }
      }
      return true;
    }
  }

  const QUERY_HASHES: nat := 7

  class QueryEngine {
    const filter: BloomFilter
    var exactStore: set<Str>

    ghost function Size(): nat
      reads this
    {
      filter.bits.Length
    }

    /** A bit is set exactly when some stored item hashes to it. */
    ghost predicate Valid()
      reads this, filter, filter.bits
    {
      && filter.bits.Length > 0 && filter.numHashes == QUERY_HASHES
      && forall b :: 0 <= b < filter.bits.Length ==>
                       (filter.bits[b] <==> Hit(exactStore, b, filter.bits.Length, QUERY_HASHES))
    }

    constructor (expectedItems: nat)
      requires expectedItems > 0
      ensures Valid() && exactStore == {} && Size() == expectedItems * 10
      ensures fresh(filter) && fresh(filter.bits)
    {
      filter := new BloomFilter(expectedItems * 10, 7);
      exactStore := {};
    }

    method Insert(item: Str)
      requires Valid()
      modifies this`exactStore, filter.bits
      ensures Valid() && exactStore == old(exactStore) + {item}
    {
      hide Positions;
      filter.Add(item);
      exactStore := exactStore + {item};
      forall b | 0 <= b < filter.bits.Length
        ensures Hit(exactStore, b, filter.bits.Length, QUERY_HASHES)
           <==> Hit(old(exactStore), b, filter.bits.Length, QUERY_HASHES)
                || b in Positions(item, filter.bits.Length, QUERY_HASHES)
      {
        HitInsert(old(exactStore), item, b, filter.bits.Length, QUERY_HASHES);
      }
    }

    /** The three-valued answer is the one the set of inserted items calls for. */
    method Query(item: Str) returns (r: QueryResult)
      requires Valid()
      ensures r == Answer(exactStore, item, Size(), QUERY_HASHES)
      ensures r == DefinitelyYes <==> item in exactStore
      ensures r == DefinitelyNo
         <==> exists b :: b in Positions(item, Size(), QUERY_HASHES)
                          && forall i :: i in exactStore ==> b !in Positions(i, Size(), QUERY_HASHES)
    {
      hide Positions;
      AnswerExactly(exactStore, item, Size(), QUERY_HASHES);
      var possible := filter.PossiblyContains(item);
      ghost var p := Positions(item, filter.bits.Length, QUERY_HASHES);
      CoveredByIndex(exactStore, item, filter.bits.Length, QUERY_HASHES);
      if !possible {
        return DefinitelyNo;
      }
      if item in exactStore {
        return DefinitelyYes;
      }
      return ProbablyYes;
    }
  }

  lemma HitInsert(items: set<Str>, item: Str, b: nat, size: nat, hashes: nat)
    requires size > 0
    ensures Hit(items + {item}, b, size, hashes)
       <==> Hit(items, b, size, hashes) || b in Positions(item, size, hashes)
  {
    hide Positions;
    if Hit(items, b, size, hashes) {
      var i :| i in items && b in Positions(i, size, hashes);
      assert i in items + {item};
    } else if b in Positions(item, size, hashes) {
      assert item in items + {item};
    }
  }

  /** Every position of a stored item is hit. */
  lemma CoveredByIndex(items: set<Str>, item: Str, size: nat, hashes: nat)
    requires size > 0
    ensures var p := Positions(item, size, hashes);
            && ((forall b :: b in p ==> Hit(items, b, size, hashes))
                <==> forall i :: 0 <= i < |p| ==> Hit(items, p[i], size, hashes))
            && (item in items ==> forall b :: b in p ==> Hit(items, b, size, hashes))
  {
    hide Positions;
  }
}
