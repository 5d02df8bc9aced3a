/** Tasks that are accepted and installed although their definitions cannot be kept. */
module LossExamples {
  import opened Common
  import opened TomlValue
  import opened Schedule
  import opened ScheduleText
  import opened TaskSpec
  import TomlText
  import TomlDocument
  import Definition
  import Catchup
  import opened UnitFiles
  import opened UnitDirectory

  function Sample(description: string, kind: Kind): Task
    requires ValidKind(kind)
  {
    Task("sample", description, ["true"], None, None, None, [], [], [], Some(Canonical(kind)),
         None, 0, None, None, None, [], [], false, false, [])
  }

  /** A description that consists of U+007F. */
  const DELETED := Sample([TomlText.DELETE], Daily(9, 0))

  /** A raw schedule for systemd, with a fractional number where launchd would look. */
  const FRACTION := Sample("", Raw([Entry("systemd", Value.Text("daily")), Entry("launchd", Other("1.5"))]))

  lemma DeletedIsInstallable()
    ensures Installable(DELETED) && Catchup.Qualifies(DELETED) && Definition.PrintableTask(DELETED)
  {}

  lemma DeletedIsUnclean()
    ensures !Definition.CleanTask(DELETED)
  {
    assert Definition.PRINTED[2] == Definition.Description;
    assert TomlText.DELETE in DELETED.description;
    if Definition.CleanTask(DELETED) {
      Definition.CleanFields(DELETED, Definition.Description);
    }
  }

  lemma FractionIsUnprintable()
    ensures Installable(FRACTION) && !Definition.PrintableTask(FRACTION)
  {
    var table := FRACTION.schedule.value.kind.table;
    assert !TomlText.Printable(table[1].value);
    assert ParseRaw(table) == Ok(FRACTION.schedule.value);
    assert table[0].key != table[1].key;
  }

  /** Both are installed on an empty disk, and leave it without the invariant. */
  lemma BothBreakTheInvariant(c: Setting, replaceExisting: bool, a: Answers)
    ensures !Consistent(c, Installed(c, EMPTY, DELETED, replaceExisting, a))
    ensures !Consistent(c, Installed(c, EMPTY, FRACTION, replaceExisting, a))
  {
    DeletedIsInstallable();
    DeletedIsUnclean();
    FractionIsUnprintable();
    EmptyIsConsistent(c);
    InstallKeepsConsistent(c, EMPTY, DELETED, replaceExisting, a);
    InstallKeepsConsistent(c, EMPTY, FRACTION, replaceExisting, a);
  }
}
