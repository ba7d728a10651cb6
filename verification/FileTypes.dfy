/** The --file-type selectors and the type stage of the visitor. */
module FileTypes {
  import opened FileSystem

  datatype Selector = Empty | Of(ty: EntryType)

  /** `selected` has one bit a type; `empty` asks for empty entries on top. */
  datatype FileType = FileType(selected: bv8, empty: bool)

  function TypeBit(ty: EntryType): bv8 {
    match ty
    case File => 0x1
    case Dir => 0x2
    case Symlink => 0x4
    case BlockDevice => 0x8
    case CharDevice => 0x10
    case Fifo => 0x20
    case Socket => 0x40
  }

  predicate Selects(mask: bv8, ty: EntryType) {
    match ty
    case File => mask & 0x1 != 0
    case Dir => mask & 0x2 != 0
    case Symlink => mask & 0x4 != 0
    case BlockDevice => mask & 0x8 != 0
    case CharDevice => mask & 0x10 != 0
    case Fifo => mask & 0x20 != 0
    case Socket => mask & 0x40 != 0
  }

  /** The selection a list of selectors stands for; --empty alone means files and directories. */
  predicate Wanted(sel: seq<Selector>, ty: EntryType) {
    Of(ty) in sel || (Empty in sel && Of(File) !in sel && Of(Dir) !in sel && (ty == File || ty == Dir))
  }

  lemma AddType(mask: bv8, added: EntryType, ty: EntryType)
    ensures Selects(mask | TypeBit(added), ty) <==> Selects(mask, ty) || ty == added
  {
    match ty
    case File => assert Selects(TypeBit(added), ty) <==> ty == added;
    case Dir => assert Selects(TypeBit(added), ty) <==> ty == added;
    case Symlink => assert Selects(TypeBit(added), ty) <==> ty == added;
    case BlockDevice => assert Selects(TypeBit(added), ty) <==> ty == added;
    case CharDevice => assert Selects(TypeBit(added), ty) <==> ty == added;
    case Fifo => assert Selects(TypeBit(added), ty) <==> ty == added;
    case Socket => assert Selects(TypeBit(added), ty) <==> ty == added;
  }

  /** The mask built selector by selector. */
  method New(sel: seq<Selector>) returns (ft: FileType)
    ensures ft.empty == (Empty in sel)
    ensures forall ty :: Selects(ft.selected, ty) <==> Wanted(sel, ty)
  {
    var selected: bv8, empty := 0, false;
    for i := 0 to |sel|
      invariant empty == (Empty in sel[..i])
      invariant forall ty :: Selects(selected, ty) <==> Of(ty) in sel[..i]
    {
      assert sel[..i + 1] == sel[..i] + [sel[i]];
      match sel[i] {
        case Empty => empty := true;
        case Of(added) =>
          forall ty ensures Selects(selected | TypeBit(added), ty) <==> Selects(selected, ty) || ty == added {
            AddType(selected, added, ty);
          }
          selected := selected | TypeBit(added);
      }
    }
    assert sel[..|sel|] == sel;
    FilesAndDirs(selected);
    if empty && selected & 0x3 == 0 {
      forall ty ensures Selects(selected | 0x3, ty) <==> Selects(selected, ty) || ty == File || ty == Dir {
        AddBoth(selected, ty);
      }
      selected := selected | 0x3;
    }
    return FileType(selected, empty);
  }

  lemma FilesAndDirs(mask: bv8)
    ensures mask & 0x3 == 0 <==> !Selects(mask, File) && !Selects(mask, Dir)
  {
  }

  lemma AddBoth(mask: bv8, ty: EntryType)
    ensures Selects(mask | 0x3, ty) <==> Selects(mask, ty) || ty == File || ty == Dir
  {
    AddType(mask, File, ty);
    AddType(mask | 0x1, Dir, ty);
    assert mask | 0x3 == (mask | 0x1) | 0x2;
  }

  /** Whether an entry is skipped; `isEmpty` is what looking at it would answer. */
  predicate Ignores(ft: FileType, ty: EntryType, isEmpty: bool) {
    !Selects(ft.selected, ty) || (ft.empty && !isEmpty)
  }

  /** An entry stays exactly when its type is wanted and, under --empty, it is empty. */
  lemma TypeStage(sel: seq<Selector>, ft: FileType, ty: EntryType, isEmpty: bool)
    requires ft.empty == (Empty in sel) && forall t :: Selects(ft.selected, t) <==> Wanted(sel, t)
    ensures !Ignores(ft, ty, isEmpty) <==> Wanted(sel, ty) && (Empty in sel ==> isEmpty)
  {
  }
}
