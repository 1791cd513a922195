/** `PageTypes` (single.py:57-78): the four page flags, the label classifier, the
    wanted-types mask of `process` and the page filter. */
module PageTypes {
  import opened Wrappers
  import opened Text

  datatype PageType = Genere | Programma | Film | Serie

  /** An `IntFlag` value: the set of its bits. */
  type Flags = set<PageType>

  /** `PageTypes.from_string` on an already lower-cased label. The third test is
      `typology in ("serie audio")`, a substring test on one string, which is why every
      substring of "serie audio", the empty label included, classifies as SERIE. */
  function FromString(typology: string): (r: Flags)
    ensures |r| == 1
  {
    if typology == "film" || typology == "fiction" then {Film}
    else if typology == "programmi radio" || typology == "informazione notiziari" then {Programma}
    else if Contains("serie audio", typology) then {Serie}
    else {Genere}
  }

  /** The labels that map to FILM, PROGRAMMA and SERIE, and the rest to GENERE. */
  lemma FromStringCases(typology: string)
    ensures FromString(typology) == {Film} <==> typology in {"film", "fiction"}
    ensures FromString(typology) == {Programma} <==> typology in {"programmi radio", "informazione notiziari"}
    ensures FromString(typology) == {Serie} <==> Contains("serie audio", typology)
    ensures FromString(typology) == {Genere} <==>
      typology !in {"film", "fiction", "programmi radio", "informazione notiziari"} &&
      !Contains("serie audio", typology)
  {
    if Contains("serie audio", typology) {
      SerieLabelNotOther(typology);
    }
  }

  /** No substring of "serie audio" is one of the FILM or PROGRAMMA labels. */
  lemma SerieLabelNotOther(typology: string)
    requires Contains("serie audio", typology)
    ensures typology !in {"film", "fiction", "programmi radio", "informazione notiziari"}
  {
    SubstringLength("serie audio", typology);
    if typology == "film" || typology == "fiction" {
      NoCharInside("serie audio", typology, 'f');
    }
  }

  lemma {:induction false} SubstringLength(hay: string, needle: string)
    requires Contains(hay, needle)
    ensures |needle| <= |hay|
  {
    if !IsPrefix(needle, hay) {
      SubstringLength(hay[1..], needle);
    }
  }

  /** A character missing from `hay` is missing from every substring of it. */
  lemma {:induction false} NoCharInside(hay: string, needle: string, c: char)
    requires Contains(hay, needle) && needle != [] && needle[0] == c
    ensures c in hay
  {
    if IsPrefix(needle, hay) {
      assert hay[0] == needle[0];
    } else {
      NoCharInside(hay[1..], needle, c);
    }
  }

  /** Every slice of "serie audio", the empty label among them, is a SERIE page. */
  lemma SerieAudioSlices(i: nat, j: nat)
    requires i <= j <= |"serie audio"|
    ensures FromString("serie audio"[i..j]) == {Serie}
  {
    ContainsSlice("serie audio", i, j);
    SerieLabelNotOther("serie audio"[i..j]);
  }

  /** `PageTypes[name]` for the member names of the flag enum. */
  function FlagNamed(name: string): Option<PageType> {
    if name == "GENERE" then Some(Genere)
    else if name == "PROGRAMMA" then Some(Programma)
    else if name == "FILM" then Some(Film)
    else if name == "SERIE" then Some(Serie)
    else None
  }

  datatype TypeListError = EmptyTypeList | UnknownTypeName(name: string)

  /** `functools.reduce(|, (PageTypes[x] for x in types))`: the union of the named flags;
      an empty list is a TypeError of `reduce`, an unknown name a KeyError, raised at the
      first unknown name from the left. */
  function WantedTypes(types: seq<string>): (r: Result<Flags, TypeListError>)
    ensures r.Success? <==> types != [] && forall i :: 0 <= i < |types| ==> FlagNamed(types[i]).Some?
    ensures r.Success? ==> forall p :: p in r.value <==> exists i :: 0 <= i < |types| && FlagNamed(types[i]) == Some(p)
    ensures r == Failure(EmptyTypeList) <==> types == []
    decreases |types|
  {
    if types == [] then Failure(EmptyTypeList)
    else match FlagNamed(types[0])
      case None => Failure(UnknownTypeName(types[0]))
      case Some(p) =>
        if |types| == 1 then Success({p})
        else match WantedTypes(types[1..])
          case Failure(e) => Failure(e)
          case Success(rest) =>
            assert forall i :: 1 <= i < |types| ==> types[i] == types[1..][i - 1];
            Success({p} + rest)
  }

  /** The filter of single.py:173-176: a page is skipped when it has no SERIE bit and
      shares no bit with the wanted flags. */
  predicate Skipped(pagetype: Flags, wanted: Flags) {
    Serie !in pagetype && pagetype * wanted == {}
  }

  /** A SERIE page is converted whatever is wanted; a page of any other single type is
      converted exactly when its type is wanted. */
  lemma FilterOnLabel(typology: string, wanted: Flags)
    ensures Contains("serie audio", typology) ==> !Skipped(FromString(typology), wanted)
    ensures !Contains("serie audio", typology) ==>
      (Skipped(FromString(typology), wanted) <==> FromString(typology) !! wanted)
  {
    FromStringCases(typology);
  }
}
