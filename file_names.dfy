/**
 * The file-name generator (Downloader.createFileName): a fixed prefix followed
 * by twelve letters drawn at random from a 25-letter pool.
 */
module FileNames {

  /** The pool the letters are drawn from: the lower-case alphabet without 'n'. */
  const CharacterPool: string := "abcdefghijklmopqrstuvwxyz"
  const FileNameStarter: string := "IVD_"
  const CharacterCount: nat := 12

  /** The shape of every name createFileName can return. */
  predicate IsGeneratedName(name: string)
  {
    |name| == |FileNameStarter| + CharacterCount &&
    name[..|FileNameStarter|] == FileNameStarter &&
    forall i :: |FileNameStarter| <= i < |name| ==> name[i] in CharacterPool
  }

  /** The pool holds 25 letters in alphabetical order: every lower-case letter except 'n'. */
  lemma CharacterPoolLetters()
    ensures |CharacterPool| == 25
    ensures forall ch :: ch in CharacterPool <==> 'a' <= ch <= 'z' && ch != 'n'
    ensures forall i :: 0 < i < |CharacterPool| ==> CharacterPool[i - 1] < CharacterPool[i]
  {
  }

  /** A generated name is 16 characters long, starts with "IVD_" and has only pool letters after it. */
  lemma GeneratedNameShape(name: string)
    requires IsGeneratedName(name)
    ensures |name| == 16 && name[..4] == "IVD_"
    ensures forall i :: 4 <= i < 16 ==> 'a' <= name[i] <= 'z' && name[i] != 'n'
  {
    CharacterPoolLetters();
  }

  /**
   * createFileName. `(int)(generator.nextFloat() * 25)` is some index in
   * [0, 25); which one is left open, so the name is any of the possible ones.
   */
  method CreateFileName() returns (fileName: string)
    ensures IsGeneratedName(fileName)
  {
    fileName := FileNameStarter;
    for characters := 0 to CharacterCount
      invariant |fileName| == |FileNameStarter| + characters
      invariant fileName[..|FileNameStarter|] == FileNameStarter
      invariant forall i :: |FileNameStarter| <= i < |fileName| ==> fileName[i] in CharacterPool
    {
      var indexOfPool :| 0 <= indexOfPool < |CharacterPool|;
      fileName := fileName + [CharacterPool[indexOfPool]];
    }
  }
}
