/** A source as the agents share it, and finding sources by their reference. */
module Sources {

  datatype Source = Source(ref: string, url: string, domain: string, credibility: real)

  /** The lookup table from references to sources; a later source hides an earlier one. */
  function ByRef(sources: seq<Source>): map<string, Source> {
    if sources == [] then map[]
    else ByRef(sources[..|sources| - 1])[sources[|sources| - 1].ref := sources[|sources| - 1]]
  }

  predicate RefsDiffer(sources: seq<Source>) {
    forall i, j :: 0 <= i < j < |sources| ==> sources[i].ref != sources[j].ref
  }

  /** With distinct references the table holds exactly the sources: none hides another. */
  lemma {:induction false} ByRefFindsEvery(sources: seq<Source>)
    requires RefsDiffer(sources)
    ensures forall i :: 0 <= i < |sources| ==>
      sources[i].ref in ByRef(sources) && ByRef(sources)[sources[i].ref] == sources[i]
    ensures forall r :: r in ByRef(sources) ==> ByRef(sources)[r] in sources && ByRef(sources)[r].ref == r
  {
    if sources != [] {
      var n := |sources| - 1;
      ByRefFindsEvery(sources[..n]);
      assert sources == sources[..n] + [sources[n]];
      forall i | 0 <= i < n ensures sources[i].ref in ByRef(sources) && ByRef(sources)[sources[i].ref] == sources[i] {
        assert sources[..n][i] == sources[i] && sources[i].ref != sources[n].ref;
      }
    }
  }
}
