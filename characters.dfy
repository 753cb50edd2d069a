/** The piggy characters and their lookup with a fallback. */
module Characters {
  import opened Common
  import opened Lists

  /** A character, without its description and colours. */
  datatype Character = Character(id: string, name: string)

  /** `CHARACTERS`: the first entry is the fallback `classic`. */
  const CharacterTable: seq<Character> := [
    Character("classic", "Classic Piggy"),
    Character("robo", "Robo Pig"),
    Character("ninja", "Ninja Pig"),
    Character("golden", "Royal Pig")
  ]

  lemma CharacterIdsDistinct()
    ensures |CharacterTable| == 4 && CharacterTable[0].id == "classic"
    ensures forall i, j :: 0 <= i < j < |CharacterTable| ==> CharacterTable[i].id != CharacterTable[j].id
  {
  }

  /** `getCharacterById(id)`; a missing id (`undefined`) is `None`. */
  function CharacterById(id: Option<string>): Character
  {
    var found := Find(CharacterTable, (c: Character) => id == Some(c.id));
    if found.Some? then found.value else CharacterTable[0]
  }

  /** The result is always a table entry: the one with the id when there is
      one, and `classic` for an unknown or missing id. */
  lemma CharacterByIdSpec(id: Option<string>)
    ensures CharacterById(id) in CharacterTable
    ensures forall i :: 0 <= i < |CharacterTable| && id == Some(CharacterTable[i].id) ==>
      CharacterById(id) == CharacterTable[i]
    ensures (forall i :: 0 <= i < |CharacterTable| ==> id != Some(CharacterTable[i].id)) ==>
      CharacterById(id).id == "classic"
  {
    CharacterIdsDistinct();
    forall i | 0 <= i < |CharacterTable| && id == Some(CharacterTable[i].id)
      ensures CharacterById(id) == CharacterTable[i]
    {
      FindUnique(CharacterTable, (c: Character) => id == Some(c.id), i);
    }
  }
}
