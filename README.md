# Amber force-field conversion, modelled in Dafny

`scripts/processAmberForceField.py` in openmoltools turns Amber force-field
files into an OpenMM force-field XML. Its class `AmberParser` works in four
stages:

- It reads OFF residue libraries (`process_library_file`), Amber parameter
  files (`process_dat_file`) and frcmod files (`process_frc_file`) into its
  tables. The tables are residues, atom types, bonds, angles, torsions,
  impropers, van der Waals parameters and equivalences.
- It merges the types of hydrogens bound to the same atom and renumbers the
  types that remain (`reduce_atomtypes`).
- It writes everything out, keeping one parameter per class signature
  (`print_xml`).

This project models that class.

- `common.dfy`, `text.dfy`: the Python exceptions the code can raise, as
  `Failure` values. Also the string and number operations it relies on:
  `strip`, `split`, negative indices, slices, `int()`, `float()`, `abs`,
  truncation and sorted string keys.
- `records.dfy`: the parser's state as a value (`Model`). Also `addAtom`,
  `addBond` and `addExternalBond` as functions, and the invariant the readers
  keep.
- `library_reader.dfy`, `rows.dfy`, `dat_reader.dfy`, `frc_reader.dfy`: each
  reader as a step function over one line and a run over all lines. Lemmas
  state what each kind of line does, that an exception ends the read, and
  that the invariant is kept. `library_reader.dfy` also holds the reader as
  it is written (see Findings).
- `reducer.dfy`: the three passes of `reduce_atomtypes` as functions. The
  theorem `ReduceCharacterised` states their result for well-formed residues.
- `emitter.dfy`: what `print_xml` emits, as records. Lemmas state which
  parameter each signature keeps: the first for bonds and angles, the last
  for torsions and impropers. They also state that no signature is written
  twice and none with a water class, and which atom types get a nonbonded
  line.
- `writer.dfy`: the loops of `print_xml` as methods. Each is proved equal to
  the emitter's functions.
- `amber.dfy`: class `AmberParser`, with the source's fields. Its methods
  change those fields line by line and entry by entry, and each is proved
  against the functions above. `reduce_atomtypes` works on a `removeType`
  array and a `replaceWithType` array, as the source does.

## Model

| member | source | states |
|---|---|---|
| Amber.AmberParser.constructor | scripts/processAmberForceField.py:35-51 | every table starts empty and the readers' invariant holds |
| Records.AddAtom | scripts/processAmberForceField.py:54-63 | with no residue, nothing changes. Otherwise it succeeds exactly when the residue has been opened, and KeyError is its only failure |
| Records.AddAtomAppends | scripts/processAmberForceField.py:57-63 | the new type is (class, element, charge) at id len(types). Its name is that id in decimal, or residue-atom. The residue's atom list gains (name, id). Every other residue and table is unchanged |
| Records.AddAtomKeepsInvariant | scripts/processAmberForceField.py:54-63 | with numeric names, adding an atom keeps type ids fresh, names equal to ids and atom lists pointing at their own types |
| Records.EmptyModelInvariant | scripts/processAmberForceField.py:35-51 | the empty state satisfies the readers' invariant |
| Amber.AmberParser.AddAtom | scripts/processAmberForceField.py:54-63 | the fields become what AddAtom gives. On KeyError they are unchanged |
| Records.AddBond | scripts/processAmberForceField.py:65-68 | with no residue, nothing changes. Otherwise KeyError exactly when the residue was never opened |
| Records.AddBondAppends | scripts/processAmberForceField.py:65-68 | the pair is appended to that residue's bond list and nothing else changes |
| Amber.AmberParser.AddBond | scripts/processAmberForceField.py:65-68 | the fields become what AddBond gives. On KeyError they are unchanged |
| Records.AddExternalBond | scripts/processAmberForceField.py:70-74 | with no residue, or atom -1, nothing changes. Otherwise KeyError exactly when the residue was never opened |
| Records.AddExternalBondAppends | scripts/processAmberForceField.py:73-74 | the atom is appended to that residue's external bonds and nothing else changes |
| Amber.AmberParser.AddExternalBond | scripts/processAmberForceField.py:70-74 | the fields become what AddExternalBond gives. On KeyError they are unchanged |
| LibraryReader.OpenResidue | scripts/processAmberForceField.py:103-111 | an atoms entry of a kept residue (re)starts that residue's atom, bond and external-bond lists as empty; nothing else changes |
| LibraryReader.AtomRowOf | scripts/processAmberForceField.py:120-133 | an atom line gives the unquoted name and class, the element looked up from the atomic number in field 6 and the charge in field 7; IndexError or ValueError on a short or unreadable line |
| LibraryReader.IndexPair | scripts/processAmberForceField.py:138-140 | a connectivity line gives its first two fields read by int(), before they are made zero-based |
| LibraryReader.AddExternalBonds | scripts/processAmberForceField.py:145-146 | addExternalBond applied to each index of a residueconnect row in turn, the first failure ending the row |
| LibraryReader.EntryStep | scripts/processAmberForceField.py:100-119 | an entry line of a residue in skipResidues (CIO, IB) clears the current residue; any other names the residue and the section, and an atoms section opens the residue; IndexError on too few fields |
| LibraryReader.DataStep | scripts/processAmberForceField.py:120-146 | a data line is handled by the current section: an atom, a connect index, a bond or a residueconnect row; other sections ignore it |
| LibraryReader.LibStep | scripts/processAmberForceField.py:99-146 | one library line: an entry line when it starts with !entry, a data line otherwise |
| LibraryReader.LibRun | scripts/processAmberForceField.py:97-146 | the library reader over all lines, from the empty reader state, the first failure ending the read |
| LibraryReader.WrittenEntry | scripts/processAmberForceField.py:100-119 | an entry line as the code is written: a skipped residue clears the residue and leaves the section variable as it was |
| LibraryReader.WrittenData | scripts/processAmberForceField.py:120-146 | a data line as written: reading the section before any assignment fails, and the calls to the bare names addAtom, addBond and addExternalBond fail |
| LibraryReader.WrittenStep | scripts/processAmberForceField.py:99-146 | one library line as the code is written |
| LibraryReader.WrittenRun | scripts/processAmberForceField.py:97-146 | the library reader as the code is written, over all lines |
| LibraryReader.Lookup | scripts/processAmberForceField.py:127-133 | the element table yields the element for a known atomic number, and KeyError for any other |
| LibraryReader.ElementFor | scripts/processAmberForceField.py:124-133 | with atomic number -1: class C gives carbon, H gives hydrogen, an empty class gives IndexError, any other gives the illegal-atomic-number ValueError. Otherwise the element of int(number) |
| LibraryReader.IndexPairReadsFirstTwo | scripts/processAmberForceField.py:139-140 | a connectivity line is read exactly when its first two fields are integers, and yields them |
| LibraryReader.ZeroBased | scripts/processAmberForceField.py:145 | succeeds exactly when every token is an integer, and gives each minus one |
| LibraryReader.AddExternalBondsFailureSticks | scripts/processAmberForceField.py:145-146 | after one failed external bond, the rest of the row adds nothing and the row fails the same way |
| LibraryReader.LibRunFailureSticks | scripts/processAmberForceField.py:99-146 | once a line raises, the whole file raises the same exception |
| LibraryReader.SkippedResidueRecordsNothing | scripts/processAmberForceField.py:103-105 | an entry of CIO or IB, and the lines up to the next non-skipped entry, record nothing and leave no residue open |
| LibraryReader.DataStepWithoutResidue | scripts/processAmberForceField.py:120-146 | with no residue open, a data line that succeeds changes nothing |
| LibraryReader.AddExternalBondsWithoutResidue | scripts/processAmberForceField.py:141-146 | a residueconnect row with no residue open changes nothing |
| Text.ParseIntBlanksAfterSign | scripts/processAmberForceField.py:137 | Python 2's int() reads a sign, blanks and digits as the signed number, so a connect line such as `- 3` reads as -3 |
| LibraryReader.ConnectIsZeroBased | scripts/processAmberForceField.py:136-137 | a connect line k appends external bond k-1, and nothing when k is 0 |
| LibraryReader.ConnectivityIsZeroBased | scripts/processAmberForceField.py:138-140 | a connectivity line (a, b) appends the bond (a-1, b-1) to the open residue and nothing else |
| LibraryReader.ConnectivityStep | scripts/processAmberForceField.py:138-140 | a connectivity line is addBond with both one-based indices made zero-based |
| LibraryReader.ResidueConnectIgnoresFirstTwo | scripts/processAmberForceField.py:141-146 | two residueconnect lines that differ only in their first two fields have the same effect |
| LibraryReader.ResidueConnectAppends | scripts/processAmberForceField.py:145-146 | a row appends, in order, every atom other than -1 to the residue's external bonds |
| LibraryReader.AtomLineRecorded | scripts/processAmberForceField.py:120-135 | a well-formed atom line adds one type (class, element, charge) named by its id, and one atom of the open residue referring to it |
| LibraryReader.OpenResidueKeepsInvariant | scripts/processAmberForceField.py:107-111 | opening a residue's atoms entry keeps the invariant |
| LibraryReader.AddBondKeepsInvariant | scripts/processAmberForceField.py:65-68 | adding a bond keeps the invariant |
| LibraryReader.AddExternalBondKeepsInvariant | scripts/processAmberForceField.py:70-74 | adding an external bond keeps the invariant |
| LibraryReader.AddExternalBondsKeepsInvariant | scripts/processAmberForceField.py:145-146 | a whole residueconnect row keeps the invariant |
| LibraryReader.DataStepKeepsInvariant | scripts/processAmberForceField.py:120-146 | every data line that succeeds keeps the invariant |
| LibraryReader.LibStepKeepsInvariant | scripts/processAmberForceField.py:99-146 | every line that succeeds keeps the invariant |
| LibraryReader.LibRunKeepsInvariant | scripts/processAmberForceField.py:97-146 | reading a whole library keeps the invariant |
| LibraryReader.LineBeforeFirstEntryPassed | scripts/processAmberForceField.py:99-120 | with the section starting at OTHER, a line before the first entry is passed over |
| LibraryReader.WrittenFailsBeforeFirstEntry | scripts/processAmberForceField.py:99-120 | as written, a non-entry first line raises UnboundLocalError |
| LibraryReader.IndexHeaderShowsUnboundSection | scripts/processAmberForceField.py:97-120 | as written, a file starting `!!index array str` raises UnboundLocalError. With the section starting at OTHER, it is read |
| LibraryReader.WrittenRejectsAtomLine | scripts/processAmberForceField.py:134-135 | as written, a well-formed atom line raises NameError |
| LibraryReader.WrittenStepRecordsNothing | scripts/processAmberForceField.py:99-146 | as written, a line that does not raise records no atom, bond or external bond |
| LibraryReader.WrittenRecordsNothing | scripts/processAmberForceField.py:97-146 | as written, a library read that does not raise records no atom, bond or external bond |
| Amber.AmberParser.EntryLine | scripts/processAmberForceField.py:100-119 | an entry line changes the fields and section exactly as the entry step says |
| Amber.AmberParser.AddExternalBondRow | scripts/processAmberForceField.py:145-146 | the loop over a residueconnect row leaves the fields the row's specification gives |
| Amber.AmberParser.DataLine | scripts/processAmberForceField.py:120-146 | a data line changes the fields exactly as the data step says, or reports its exception |
| Amber.AmberParser.LibraryLine | scripts/processAmberForceField.py:99-146 | one line of a library, against the step function |
| Amber.AmberParser.ProcessLibraryFile | scripts/processAmberForceField.py:97-146 | the fields after the loop are those the run over all lines gives, or the first exception is reported |
| Rows.MassRow | scripts/processAmberForceField.py:156-161 | a mass line gives its first field as the class and its second parsed as the mass; IndexError or ValueError otherwise |
| Rows.BondRow | scripts/processAmberForceField.py:164-169 | a bond line gives the classes in columns 0-2 and 3-5 and the next two tokens from column 5 on; IndexError when they are missing |
| Rows.AngleRow | scripts/processAmberForceField.py:170-175 | an angle line gives the classes in columns 0-2, 3-5 and 6-8 and the next two tokens from column 8 on |
| Rows.ImproperRow | scripts/processAmberForceField.py:187-192 | an improper line gives four classes from columns 0-11 and three tokens from column 11 on |
| Rows.VdwRow | scripts/processAmberForceField.py:208-213 | a van der Waals line gives its first field as the class and the next two fields as the radius and well depth tokens |
| Rows.AddTorsion | scripts/processAmberForceField.py:180-186 | a torsion row extends the last torsion when the continuation flag is set, otherwise opens a new torsion; the new flag is whether the periodicity was negative |
| Rows.Record | scripts/processAmberForceField.py:156-213 | what both readers do with a parsed entry: mass, bond, angle, torsion, improper, equivalence and van der Waals entries go to their tables |
| Rows.TorsionRowOf | scripts/processAmberForceField.py:180-186 | a torsion line succeeds exactly when four fields from column 11 parse and the divisor is not zero. The term is barrier over divisor, the phase token and the absolute value of int(float(periodicity)). The line continues the torsion exactly when that value is negative. The classes are columns 0-2, 3-5, 6-8 and 9-11, stripped. A failure is IndexError exactly when a field is missing, ZeroDivisionError exactly when the divisor is zero, and ValueError otherwise |
| Rows.AddTorsionShape | scripts/processAmberForceField.py:182-186 | a continuation line appends its term to the last torsion and keeps the earlier ones. Any other line appends a new one-term torsion. The flag becomes "periodicity < 0" |
| Rows.Equate | scripts/processAmberForceField.py:200-202 | every listed class now maps to the target, and every other class keeps its mapping |
| Rows.RecordKeepsInvariant | scripts/processAmberForceField.py:156-213 | recording a parsed entry keeps the parameter invariant and does not touch residues or types |
| Rows.RecordFails | scripts/processAmberForceField.py:182-183 | recording fails only for a continuation line when there is no torsion yet (IndexError), and only torsions change the flag |
| Amber.AmberParser.RecordEntry | scripts/processAmberForceField.py:156-213 | the fields and flag become what recording the entry gives |
| DatReader.DataRow | scripts/processAmberForceField.py:156-213 | a data line of blocks 1, 3, 4, 5, 6, 8 and 10 parsed into its entry by the block's row reader |
| DatReader.DatParse | scripts/processAmberForceField.py:152-213 | a stripped line under the current block: the title and hydrophilic lines advance, block 9 reads the kind line, lines after the van der Waals block stay, a blank line ends a list block, hbond lines stay, other lines are parsed as entries |
| DatReader.DatApply | scripts/processAmberForceField.py:152-213 | the effect of a parsed line: advance the block, set the van der Waals kind, or record an entry |
| DatReader.DatStep | scripts/processAmberForceField.py:150-213 | one stripped line of a parameter file: its parse followed by its effect |
| DatReader.DatRun | scripts/processAmberForceField.py:148-213 | the parameter-file reader over all lines, each stripped, the first failure ending the read |
| DatReader.DatRunFailureSticks | scripts/processAmberForceField.py:152-213 | once a line raises, the whole file raises the same exception |
| DatReader.DatApplyBlock | scripts/processAmberForceField.py:152-213 | only a block-ending line and the van der Waals kind line advance the block, by one |
| DatReader.DatStepBlock | scripts/processAmberForceField.py:152-213 | a line advances the block by at most one |
| DatReader.DatRunBlockMonotone | scripts/processAmberForceField.py:152-213 | the block number never decreases along a file |
| DatReader.OneLineBlocks | scripts/processAmberForceField.py:154-163 | the title, the hydrophilic line and the van der Waals kind take exactly one line. The first two record nothing |
| DatReader.BlankLineEndsBlock | scripts/processAmberForceField.py:156-213 | in the list blocks, a blank line ends the block and records nothing, and any other line stays in the block |
| DatReader.IgnoredAfterBlockTen | scripts/processAmberForceField.py:208-213 | after the van der Waals parameters end, the rest of the file is ignored |
| DatReader.BondColumns | scripts/processAmberForceField.py:164-169 | a bond line gives the classes in columns 0-2 and 3-5 and the first two fields after column 5, failing when fewer than two |
| DatReader.AngleColumns | scripts/processAmberForceField.py:170-175 | an angle line gives classes in columns 0-2, 3-5, 6-8 and two fields after column 8 |
| DatReader.TorsionColumns | scripts/processAmberForceField.py:176-186 | a torsion line gives the four classes in fixed columns and the term parsed from column 11 on |
| DatReader.ImproperColumns | scripts/processAmberForceField.py:187-192 | an improper line gives the four classes in fixed columns and three fields after column 11 |
| DatReader.VdwKindChecked | scripts/processAmberForceField.py:203-207 | the kind line is accepted exactly when its second field is RE or AC. Another kind gives BadNonbondedType (Python's ValueError). Acceptance sets vdwType and moves to block 10 |
| DatReader.EquivalenceLineRedirects | scripts/processAmberForceField.py:196-202 | an equivalence line maps each following class to the first field and keeps every other mapping |
| DatReader.TorsionLineContinues | scripts/processAmberForceField.py:176-186 | a torsion line extends the last torsion when continuing, else appends a new one. Nothing else changes |
| DatReader.TorsionApplied | scripts/processAmberForceField.py:182-186 | a torsion entry in the dat reader is AddTorsion on the torsion list and the flag |
| DatReader.DatParseTorsionWellFormed | scripts/processAmberForceField.py:181-185 | parsed torsion entries carry non-negative periodicities |
| DatReader.DatStepKeepsInvariant | scripts/processAmberForceField.py:152-213 | every line keeps the parameter invariant and does not touch residues or types |
| DatReader.DatRunKeepsInvariant | scripts/processAmberForceField.py:148-213 | a whole parameter file keeps the invariant and does not touch residues or types |
| Amber.AmberParser.DatLine | scripts/processAmberForceField.py:153-213 | one stripped line, against the step function |
| Amber.AmberParser.ProcessDatFile | scripts/processAmberForceField.py:148-213 | the fields after the loop are those the run gives, or the first exception is reported |
| FrcReader.FrcParse | scripts/processAmberForceField.py:221-248 | a stripped line of an frcmod file: the first line and blank lines reset, the line after a reset names the section, lines of an unknown section are ignored, others are parsed as that section's entries |
| FrcReader.FrcApply | scripts/processAmberForceField.py:221-248 | the effect of a parsed line: a reset closes the section, a header names it, an entry is recorded as the parameter-file reader records it |
| FrcReader.FrcStep | scripts/processAmberForceField.py:219-248 | one stripped line of an frcmod file: its parse followed by its effect |
| FrcReader.FrcRun | scripts/processAmberForceField.py:215-248 | the frcmod reader over all lines, each stripped, the first failure ending the read |
| FrcReader.SectionBlock | scripts/processAmberForceField.py:226-248 | a section name selects the format by its first four letters (MASS, BOND, ANGL, DIHE, IMPR, NONB), and any other name is skipped |
| FrcReader.FrcRunFailureSticks | scripts/processAmberForceField.py:219-248 | once a line raises, the whole file raises the same exception |
| FrcReader.ResetLine | scripts/processAmberForceField.py:221-223 | the first line and blank lines close the section and keep the torsion continuation flag |
| FrcReader.HeaderLine | scripts/processAmberForceField.py:224-225 | the line after a close names the section |
| FrcReader.SkippedSectionLine | scripts/processAmberForceField.py:226-248 | lines of an unknown section change nothing |
| FrcReader.SectionParsesLikeParameterFile | scripts/processAmberForceField.py:226-248 | a section line parses exactly as the parameter-file block of the same format: the same entry or the same failure |
| FrcReader.EntryRecordedLikeParameterFile | scripts/processAmberForceField.py:226-248 | both readers record an entry alike |
| FrcReader.SectionReadsLikeParameterFile | scripts/processAmberForceField.py:226-248 | a section line has the same effect as in the parameter-file reader |
| FrcReader.FrcStepKeepsInvariant | scripts/processAmberForceField.py:219-248 | every line keeps the invariant and touches no residue, type or van der Waals kind |
| FrcReader.FrcRunKeepsInvariant | scripts/processAmberForceField.py:215-248 | a whole frcmod file keeps the invariant and touches no residue, type or van der Waals kind |
| Amber.AmberParser.FrcLine | scripts/processAmberForceField.py:220-248 | one stripped line, against the step function |
| Amber.AmberParser.ProcessFrcFile | scripts/processAmberForceField.py:215-248 | the fields after the loop are those the run gives, or the first exception is reported |
| Reducer.NeighboursOf | scripts/processAmberForceField.py:383-386 | the neighbour list of one atom after the bond loop: the other end of every bond naming it, in bond order |
| Reducer.AtomBonds | scripts/processAmberForceField.py:383-386 | one neighbour list per atom, or IndexError when some bond names no atom |
| Reducer.HydrogenFilter | scripts/processAmberForceField.py:388 | the atoms in a neighbour list whose type's element is hydrogen, in order |
| Reducer.HydrogensOf | scripts/processAmberForceField.py:388 | the hydrogens comprehension, or IndexError when an atom or its type cannot be looked up |
| Reducer.Redirect | scripts/processAmberForceField.py:389-391 | every hydrogen after the leader has its type marked for removal and takes the leader's type |
| Reducer.AtomPass | scripts/processAmberForceField.py:387-391 | the atom loop of one residue over its first k atoms |
| Reducer.ResidueMerge | scripts/processAmberForceField.py:383-391 | the first pass over one residue: its new atom list and the type positions it marks for removal |
| Reducer.Survivors | scripts/processAmberForceField.py:392-396 | the new type table: the types whose position is not marked, in order |
| Reducer.Kept | scripts/processAmberForceField.py:392-397 | how many positions below k are not marked, which is the new index of an unmarked type at k |
| Reducer.Renumber | scripts/processAmberForceField.py:399-401 | each atom of a residue takes the replacement of its type id, or IndexError |
| Reducer.MergeOf | scripts/processAmberForceField.py:379-391 | the first pass over one residue; a residue without a bond list is skipped |
| Reducer.Removed | scripts/processAmberForceField.py:379-391 | removeType after the first pass: the marks of every residue |
| Reducer.Merged | scripts/processAmberForceField.py:379-391 | the residues as the first pass leaves them |
| Reducer.RenumberEach | scripts/processAmberForceField.py:399-401 | the third pass over every residue, or IndexError |
| Reducer.Reduce | scripts/processAmberForceField.py:374-401 | reduce_atomtypes: the merge pass, the compaction of the type table and the renumbering, or the first IndexError |
| Reducer.HydrogenLists | scripts/processAmberForceField.py:387-388 | one hydrogen list per atom of the residue |
| Reducer.HydrogenListsOfHydrogens | scripts/processAmberForceField.py:388 | each list holds only bonded atoms whose type's element is hydrogen |
| Reducer.RedirectAll | scripts/processAmberForceField.py:389-391 | each hydrogen after the first takes the first's type id and its old id is marked removed. Nothing else changes |
| Reducer.AtomPassCharacterised | scripts/processAmberForceField.py:387-391 | after the first k atoms, each atom holds the type its pass gives it, and the marks are exactly the types those passes removed |
| Reducer.ResidueMergeCharacterised | scripts/processAmberForceField.py:383-391 | the whole residue pass succeeds on a well-formed residue, with the atoms and marks characterised |
| Reducer.ReplaceTable | scripts/processAmberForceField.py:393-397 | one replacement index per old type |
| Reducer.SurvivorsCount | scripts/processAmberForceField.py:392-396 | the new type list has as many entries as types kept |
| Reducer.KeptCount | scripts/processAmberForceField.py:392-398 | removing k distinct types leaves len(types) - k |
| Reducer.RenumberAll | scripts/processAmberForceField.py:399-401 | renumbering replaces every atom's type id through the table and changes nothing else |
| Reducer.RenumberKept | scripts/processAmberForceField.py:392-401 | a kept type's new id indexes the same type in the compacted list |
| Reducer.ReduceOfPasses | scripts/processAmberForceField.py:374-401 | the reduction is the merge pass, then compaction, then renumbering |
| Reducer.Origin | scripts/processAmberForceField.py:387-391 | the atom whose type an atom ends up sharing is an atom of the same residue |
| Reducer.OriginBondedAlike | scripts/processAmberForceField.py:387-391 | a redirected hydrogen shares the type of the first hydrogen bonded to the same atom |
| Reducer.RemovedInTable | scripts/processAmberForceField.py:379-391 | every removed type is a valid index of the old table |
| Reducer.ReducibleMerges | scripts/processAmberForceField.py:379-391 | on a reducible model, the merge pass succeeds for every residue |
| Reducer.ReduceCharacterised | scripts/processAmberForceField.py:374-401 | on well-formed residues the reduction succeeds and changes only types and atom lists. The new types are the unmarked old ones, in order. Each atom keeps its name, and its new id indexes its origin's type |
| Reducer.NewId | scripts/processAmberForceField.py:374-401 | each atom's new type id is the compacted position of its origin's type |
| Reducer.HydrogensShareType | scripts/processAmberForceField.py:374-391 | all hydrogens bound to the same atom end up with one type |
| Reducer.MergedOnlyByOrigin | scripts/processAmberForceField.py:374-401 | two atoms end up with the same type exactly when they are in the same residue and have the same origin |
| Amber.NeighbourLists | scripts/processAmberForceField.py:383-386 | the atomBonds loop builds each atom's neighbour list in bond order, or raises IndexError |
| Amber.HydrogensAmong | scripts/processAmberForceField.py:388 | the list comprehension keeps the hydrogen neighbours in order |
| Amber.RedirectHydrogens | scripts/processAmberForceField.py:389-391 | the loop over hydrogens[1:] updates removeType and the atoms as the redirect function says |
| Amber.MergeAtoms | scripts/processAmberForceField.py:387-391 | the atom loop gives the atoms and removeType marks of the residue pass |
| Amber.RenumberAtoms | scripts/processAmberForceField.py:399-401 | renumbers through the table, and IndexError is the only failure |
| Amber.Compact | scripts/processAmberForceField.py:392-397 | builds newTypes (the unmarked types in order) and replaceWithType (len(newTypes)-1 at each step) |
| Amber.MergedAll | scripts/processAmberForceField.py:380-391 | once every residue is processed, in any order, the residue tables are the merged ones |
| Amber.RenumberedAll | scripts/processAmberForceField.py:399-401 | once every residue is processed, in any order, the residue tables are the renumbered ones |
| Amber.RenumberedFails | scripts/processAmberForceField.py:399-401 | one residue failing to renumber makes the whole pass fail with IndexError |
| Amber.AmberParser.MergeResidue | scripts/processAmberForceField.py:380-391 | one residue's pass, on the fields and removeType |
| Amber.AmberParser.MergeResidues | scripts/processAmberForceField.py:379-391 | after the loop over the residues, the atoms and removeType marks are those of the merge pass |
| Amber.AmberParser.RenumberResidue | scripts/processAmberForceField.py:400-401 | one residue is renumbered and nothing else changes |
| Amber.AmberParser.RenumberResidues | scripts/processAmberForceField.py:399-401 | every residue is renumbered through the table |
| Amber.AmberParser.ReduceAtomTypes | scripts/processAmberForceField.py:374-401 | the fields become the reduction of the old fields, or IndexError is reported |
| Amber.ReducedNamesStillMatch | scripts/processAmberForceField.py:392-398 | type_names is not compacted, yet after reduction every atom's printed type name is the name printed for its new type, and every type still has its position as its name, with unused names past the end |
| Amber.ReducedNonbondedWritten | scripts/processAmberForceField.py:338-357 | on the reduced model that print_xml runs on, a surviving type i appears in the nonbonded section exactly when its charge or epsilon is non-zero, and then with its name, charge, sigma and epsilon |
| Emitter.Fix | scripts/processAmberForceField.py:10-13 | X becomes the empty class and any other class is kept, so the result is never X |
| Emitter.FixIdempotent | scripts/processAmberForceField.py:10-13 | fixing twice is fixing once |
| Emitter.Select | scripts/processAmberForceField.py:273-336 | the records a first-wins scan writes, in scan order: a record is written unless its signature was written already or contains a water class |
| Emitter.ResidueBlocks | scripts/processAmberForceField.py:257-271 | the residue blocks in sorted name order |
| Emitter.BondLines | scripts/processAmberForceField.py:272-284 | the bond section: the selected bonds, each converted |
| Emitter.AngleLines | scripts/processAmberForceField.py:285-297 | the angle section: the selected angles, each converted |
| Emitter.ProperLines | scripts/processAmberForceField.py:298-317 | the proper-torsion section: the torsions scanned last to first, selected and converted |
| Emitter.ImproperLines | scripts/processAmberForceField.py:318-336 | the improper-torsion section: the impropers scanned last to first, selected and converted |
| Emitter.PrintXml | scripts/processAmberForceField.py:250-359 | print_xml: the type, residue, bond, angle, proper, improper and nonbonded sections, or the first exception |
| Emitter.Processed | scripts/processAmberForceField.py:273-280 | the processed set holds exactly the signatures met that contain no water class |
| Emitter.SelectCovers | scripts/processAmberForceField.py:273-280 | every processed signature is written, and only those |
| Emitter.SelectDistinct | scripts/processAmberForceField.py:276-277 | no signature is written twice |
| Emitter.SelectNotSkipped | scripts/processAmberForceField.py:278-279 | no written signature contains OW or HW |
| Emitter.SelectKeepsFirst | scripts/processAmberForceField.py:274-280 | each written record is the first with its signature |
| Emitter.SelectReversedKeepsLast | scripts/processAmberForceField.py:300-306 | walking the list reversed writes the last record with each signature |
| Emitter.SelectReversedCovers | scripts/processAmberForceField.py:299-306 | walking reversed writes exactly the processed signatures |
| Emitter.ConvertBond | scripts/processAmberForceField.py:281-283 | length is the parsed length over 10, and k is the parsed k times 836.8. ValueError exactly when either does not parse |
| Emitter.ConvertAngle | scripts/processAmberForceField.py:294-296 | the angle is in radians and k is times 8.368. ValueError exactly when either does not parse |
| Emitter.ConvertTerm | scripts/processAmberForceField.py:310-314 | a term keeps its periodicity. Its phase is in radians and k is times 4.184 |
| Emitter.Numbered | scripts/processAmberForceField.py:308-310 | the j-th term (from 0) gets attribute index j+1, as (4+3j)/3 |
| Emitter.ConvertTerms | scripts/processAmberForceField.py:308-315 | converts every term, with index j+1 for term j. ValueError exactly when a phase does not parse |
| Emitter.ConvertProper | scripts/processAmberForceField.py:300-317 | the written classes are the fixed signature, and the terms are converted |
| Emitter.ConvertImproper | scripts/processAmberForceField.py:320-336 | the classes are written in the order 3, 1, 2, 4, after fix. It has one term with index 1, periodicity int(float(p)), phase in radians and k times 4.184 |
| Emitter.TypeLines | scripts/processAmberForceField.py:254-255 | type i is written with type_names[i], its class, element symbol and mass. IndexError exactly when names are fewer than types |
| Emitter.AtomLineOf | scripts/processAmberForceField.py:260-263 | an atom is written with type_names[type_id], Python indexing included |
| Emitter.ResidueBlockOf | scripts/processAmberForceField.py:259-270 | a residue block holds its atoms, bonds and external bonds, the last two only when present |
| Emitter.ResiduesSorted | scripts/processAmberForceField.py:258 | residues are written in strictly increasing name order, every residue exactly once |
| Emitter.VdwClass | scripts/processAmberForceField.py:343-344 | one equivalence step: the class's equivalent if it has one, else the class |
| Emitter.VdwPair | scripts/processAmberForceField.py:347-352 | RE: sigma is r times sigmaScale and epsilon is e times 4.184. AC: sigma is (A/B)^(1/6) and epsilon is 4.184 B^2/(4A). ZeroDivisionError or ValueError exactly where Python raises them |
| Emitter.LennardJones | scripts/processAmberForceField.py:343-355 | gives zero sigma and epsilon for a class without parameters, else the pair of its parsed parameters. MissingVdwType when no parameter file set the kind |
| Emitter.NonbondedLineOf | scripts/processAmberForceField.py:340-357 | a type is written exactly when its charge or epsilon is non-zero, with its name, charge, sigma and epsilon |
| Emitter.NonbondedLines | scripts/processAmberForceField.py:340-357 | the nonbonded section holds exactly the lines of the written types |
| Emitter.ScanWritesFirsts | scripts/processAmberForceField.py:273-283 | a first-wins scan writes each processed signature once, from its first record |
| Emitter.ScanWritesLasts | scripts/processAmberForceField.py:299-336 | a reversed scan writes each processed signature once, from its last record |
| Emitter.BondsFirstWins | scripts/processAmberForceField.py:272-284 | bond lines have distinct signatures, none with water, each from the first bond with it, covering all processed signatures |
| Emitter.AnglesFirstWins | scripts/processAmberForceField.py:285-297 | the same for angles |
| Emitter.PropersLastWins | scripts/processAmberForceField.py:298-317 | proper lines have distinct fixed signatures, each from the last torsion with it |
| Emitter.ImpropersLastWins | scripts/processAmberForceField.py:318-336 | improper lines have distinct signatures, each from the last improper with it |
| Emitter.NonbondedWrittenIff | scripts/processAmberForceField.py:340-357 | with numeric names, also when reduction has left more names than types, type i appears in the nonbonded section exactly when its charge or epsilon is non-zero, and then with its values |
| Writer.WriteTypes | scripts/processAmberForceField.py:253-256 | the type loop writes the TypeLines records |
| Writer.SortedNames | scripts/processAmberForceField.py:258 | insertion gives the sorted residue names |
| Writer.WriteAtoms | scripts/processAmberForceField.py:260-263 | the atom loop writes each atom's line or raises on the first bad type id |
| Writer.WriteResidue | scripts/processAmberForceField.py:259-270 | one residue block |
| Writer.WriteResidues | scripts/processAmberForceField.py:257-271 | the residues section in sorted order |
| Writer.Scan | scripts/processAmberForceField.py:273-283 | the processed-set loop converts, in order, the first record of each signature that has no water class |
| Writer.WriteTerms | scripts/processAmberForceField.py:308-315 | the while loop over i = 4, 7, … writes the converted terms |
| Writer.WriteProper | scripts/processAmberForceField.py:300-317 | one proper line |
| Writer.ScanPropers | scripts/processAmberForceField.py:299-317 | the processed-set loop over the torsions |
| Writer.WritePropers | scripts/processAmberForceField.py:298-317 | the torsion section, walked in reverse |
| Writer.WriteNonbondedType | scripts/processAmberForceField.py:341-357 | one type's nonbonded line, if any |
| Writer.WriteNonbonded | scripts/processAmberForceField.py:338-358 | the nonbonded section |
| Writer.WriteForceField | scripts/processAmberForceField.py:250-359 | everything print_xml writes, or its first exception |
| Amber.AmberParser.PrintXml | scripts/processAmberForceField.py:250-359 | the object's tables, written out |

In more detail, `Reducer.ReduceCharacterised` states this. On a model whose
residues are well formed (see below), the reduction succeeds, and:

- only the types and the residue atom lists change;
- the new types are the unmarked old types, in order, and there are
  len(types) minus the number removed;
- every atom keeps its name;
- every atom's new id indexes the type of its origin, where the origin is the
  first hydrogen bonded to the same atom, or the atom itself.

## Left out

- Floating point: numbers are exact reals. `int(float(x))` is truncation
  toward zero (`Text.Truncate`). The model does not format numbers as text
  (`%g`, `str`).
- Text.ParseReal: rejects `inf`, `infinity` and `nan` (in any case, with or
  without a sign), which Python's `float()` accepts. A real has no infinite or
  NaN value, so such a token gives ValueError in the model, while the source
  goes on with an infinite or NaN number.
- Text.ParseInt: a number too large for a machine word, which Python 2 turns
  into a long, is read like any other; the model does not separate the two
  paths.
- pi, the sigma scale 0.1·2/2^(1/6) and the sixth root are not computed.
  They come in as a `Numerics` value, because they are floating-point library
  operations.
- File I/O: each file is a sequence of lines. The XML is a `ForceField`
  record, not text. The `originance` header (`set_originance`) is not part of
  this model.
- The element table built from the element library (lines 15-19) is a
  parameter, `map<int, Element>`. "Is hydrogen" means atomic number 1.
- `process_mol2_file` and `parse_filenames` are not part of this model.
  The first needs the external gafftools module. The second only chooses a
  reader by file extension.
- `self.resAtomTypes` (line 43) and `self.charge` (lines 46 and 134) are not
  part of this model: they are initialised or updated but nothing reads them.
  `self.masses` is a field of `Model`; the output never reads it, so it has no
  further properties.
- Library reader: the reader used by the rest of the model, `LibRun`, has
  `section` start at OTHER and calls `self.addAtom`, `self.addBond` and
  `self.addExternalBond` with the parsed charge. The code as written is
  modelled separately, as `WrittenRun`; see Findings.
- Dictionary iteration order in `reduce_atomtypes` is not fixed by the model.
  The loops pick residues in any order, and `Amber.MergedAll` and
  `Amber.RenumberedAll` show that the result does not depend on that order.
- Reducer.ReduceCharacterised: proved only for "reducible" models. In such a
  model:
  - type ids are in range and not shared between residues, as the library
    reader guarantees;
  - bonds stay inside their residue;
  - no hydrogen is listed twice, or under two atoms.

  With a duplicate bond, the source lists a hydrogen twice. It then marks the
  hydrogen's own type as removed and still refers to it. The model captures
  that in the functions, but not in the theorem.
- Reducer.NewId: the same reducibility assumption.
- Reducer.HydrogensShareType: the same reducibility assumption.
- Reducer.MergedOnlyByOrigin: the same reducibility assumption.
- Amber.ReducedNamesStillMatch: the same reducibility assumption.
- Amber.ReducedNonbondedWritten: the same reducibility assumption.
- The reduction is not proved idempotent.
- Amber.AmberParser.ProcessLibraryFile: after an exception, the contract
  names the exception but not the fields. Python leaves them partly updated,
  and nothing reads them after the exception.
- Amber.AmberParser.ProcessDatFile: the state after an exception is not stated.
- Amber.AmberParser.ProcessFrcFile: the state after an exception is not stated.
- Amber.AmberParser.ReduceAtomTypes: the state after an exception is not stated.
- Amber.AmberParser.EntryLine: the state after an exception is not stated.
- Amber.AmberParser.DataLine: the state after an exception is not stated.
- Amber.AmberParser.LibraryLine: the state after an exception is not stated.
- Amber.AmberParser.AddExternalBondRow: the state after an exception is not stated.
- Amber.AmberParser.RecordEntry: the state after an exception is not stated.
- Amber.AmberParser.DatLine: the state after an exception is not stated.
- Amber.AmberParser.FrcLine: the state after an exception is not stated.
- Amber.AmberParser.MergeResidue: the state after an exception is not stated.
- Amber.AmberParser.MergeResidues: the state after an exception is not stated.
- Amber.AmberParser.RenumberResidue: the state after an exception is not stated.
- Amber.AmberParser.RenumberResidues: the state after an exception is not stated.
- `self.torsions[-1] += …` reads the last torsion before it parses the line,
  so on an empty torsion list the two can raise in a different order. The
  model gives IndexError, and the readers' invariant rules that state out.
- A torsion term's periodicity is stored as an integer (`abs(int(float(…)))`).
  The emitter's `int(float(...))` of it is therefore the identity.
- Design points of the source, kept as they are:
  - bonds and angles keep the first record with a signature, while torsions
    and impropers keep the last (`BondsFirstWins`, `PropersLastWins`);
  - the hydrogens of an atom are taken in bond-list order;
  - `type_names` is not compacted by `reduce_atomtypes`
    (`ReducedNamesStillMatch` shows that the printed names still agree);
  - `fix` applies only to torsions and impropers;
  - the van der Waals equivalence is followed for one step only
    (`VdwClass`);
  - `vdwType` is set only by the parameter-file reader, and a missing kind is
    the `MissingVdwType` failure (an AttributeError in Python);
  - the frcmod reader keeps `continueTorsion` across sections
    (`ResetLine`).

## Findings

| source | as written | input that shows it | evidently intended | confidence | as-written member | corrected member |
|---|---|---|---|---|---|---|
| scripts/processAmberForceField.py:108-119 | `section` is assigned inside `process_library_file`, so it is a local there and the module's `section = OTHER` (line 26) is never read. The first line that is not an entry line raises UnboundLocalError. | an OFF library starting `!!index array str`, as every Amber OFF file does | `section` starts at OTHER, and lines before the first entry are passed over | high; not executed | LibraryReader.IndexHeaderShowsUnboundSection | LibraryReader.LineBeforeFirstEntryPassed |
| scripts/processAmberForceField.py:134-146 | `addAtom`, `addExternalBond` and `addBond` are called without `self.`, and the charge is stored as `self.charge` but passed as `charge`. Every data line that would record something raises NameError, so no library adds an atom or bond (`WrittenRecordsNothing`). | any well-formed atom line after `!entry.ALA.unit.atoms table` | call the methods on `self` with the parsed charge | high; not executed | LibraryReader.WrittenRejectsAtomLine | LibraryReader.AtomLineRecorded |
