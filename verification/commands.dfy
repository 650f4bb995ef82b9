/** The argument vectors the catalog fragments produce once `process` has
    assembled and tokenised them (src/processor/mod.rs with the fragments of
    src/mainwindow/imp.rs). */
module Commands {
  import opened Common
  import opened Text
  import opened Processing
  import opened Catalog

  /** Which layout each catalog's fragments select. */
  lemma Layouts()
    ensures SmiFragments.base != SettingsBase
    ensures OptimusFragments.base != SettingsBase
    ensures SettingsFragments.base == SettingsBase
  {
    assert |SmiFragments.base| != |SettingsBase|;
    assert |OptimusFragments.base| != |SettingsBase|;
  }

  /** The words of the nvidia-smi fragments hold no space. */
  lemma SmiWords()
    ensures ' ' !in "nvidia-smi" && ' ' !in "optirun"
    ensures ' ' !in "--query-gpu=" && ' ' !in "--format=csv,noheader" && ' ' !in "-i"
  {
  }

  /** The words of the nvidia-settings fragments hold no space. */
  lemma SettingsWords()
    ensures ' ' !in "nvidia-settings" && ' ' !in "-q=[gpu:" && ' ' !in "]/" && ' ' !in "-t"
  {
  }

  /** A query-layout command line, regrouped argument by argument. */
  lemma RegroupQuery(a: string, s: string, k: string, f: string, o: string, u: string)
    ensures a + " " + s + k + (" " + f + " " + o + " ") + u ==
              a + [' '] + ((s + k) + [' '] + (f + [' '] + (o + [' '] + u)))
  {
  }

  /** A start fragment of two words splits at its space. */
  lemma TwoWordStart(w: string, s: string, k: string)
    requires ' ' !in w
    ensures Split(w + " " + s + k, ' ') == [w] + Split(s + k, ' ')
  {
    assert w + " " + s + k == w + [' '] + (s + k);
    SplitAppend(w, s + k, ' ');
    SplitNoSeparator(w, ' ');
  }

  /** A settings-layout command line, regrouped argument by argument. */
  lemma RegroupSettings(a: string, s: string, u: string, m: string, k: string, t: string)
    ensures a + " " + s + u + m + k + (" " + t) == a + [' '] + ((s + u + m + k) + [' '] + t)
  {
  }

  /** A regrouped query-layout line splits into its first word, the pieces
      of its second part, two more words and the pieces of its tail. */
  lemma QueryPieces(a: string, q: string, f: string, o: string, u: string)
    requires ' ' !in a && ' ' !in f && ' ' !in o
    ensures Split(a + [' '] + (q + [' '] + (f + [' '] + (o + [' '] + u))), ' ') ==
              [a] + Split(q, ' ') + [f, o] + Split(u, ' ')
  {
    var t3 := o + [' '] + u;
    var t2 := f + [' '] + t3;
    var t1 := q + [' '] + t2;
    var us := Split(u, ' ');
    assert Split(t3, ' ') == [o] + us by {
      SplitAppend(o, u, ' ');
      SplitNoSeparator(o, ' ');
    }
    assert Split(t2, ' ') == [f, o] + us by {
      SplitAppend(f, t3, ' ');
      SplitNoSeparator(f, ' ');
      ListAssoc([f], [o], us);
    }
    assert Split(t1, ' ') == Split(q, ' ') + ([f, o] + us) by {
      SplitAppend(q, t2, ' ');
    }
    assert Split(a + [' '] + t1, ' ') == [a] + (Split(q, ' ') + ([f, o] + us)) by {
      SplitAppend(a, t1, ' ');
      SplitNoSeparator(a, ' ');
    }
    ListAssoc([a], Split(q, ' '), [f, o] + us);
    ListAssoc([a] + Split(q, ' '), [f, o], us);
  }

  /** Concatenation of argument lists is associative. */
  lemma ListAssoc(x: seq<string>, y: seq<string>, z: seq<string>)
    ensures x + (y + z) == x + y + z
  {
  }

  /** The query layout (`base start key end uuid`) with an end of the form
      " flag opt ": the base, the pieces of start+key, flag, opt, then the
      pieces of the uuid. */
  lemma QueryLayout(p: Processor, flag: string, opt: string, uuid: Option<string>, key: Option<string>)
    requires p.base != SettingsBase
    requires p.end == " " + flag + " " + opt + " "
    requires ' ' !in p.base && ' ' !in flag && ' ' !in opt
    ensures Tokenise(AssembleCommand(p, uuid, key)) ==
              [p.base] + Split(p.start + OrEmpty(key), ' ') + [flag, opt] + Split(OrEmpty(uuid), ' ')
  {
    RegroupQuery(p.base, p.start, OrEmpty(key), flag, opt, OrEmpty(uuid));
    QueryPieces(p.base, p.start + OrEmpty(key), flag, opt, OrEmpty(uuid));
  }

  /** The settings layout (`base start uuid middle key end`) with an end of
      the form " t": the base, the pieces of start+uuid+middle+key, then t. */
  lemma SettingsLayout(p: Processor, t: string, uuid: Option<string>, key: Option<string>)
    requires p.base == SettingsBase
    requires p.end == " " + t
    requires ' ' !in t
    ensures Tokenise(AssembleCommand(p, uuid, key)) ==
              [p.base] + Split(p.start + OrEmpty(uuid) + OrEmpty(p.middle) + OrEmpty(key), ' ') + [t]
  {
    var q := p.start + OrEmpty(uuid) + OrEmpty(p.middle) + OrEmpty(key);
    RegroupSettings(p.base, p.start, OrEmpty(uuid), OrEmpty(p.middle), OrEmpty(key), t);
    SplitAppend(q, t, ' ');
    SplitNoSeparator(t, ' ');
    SplitAppend(p.base, q + [' '] + t, ' ');
    assert ' ' !in p.base by { SettingsWords(); }
    SplitNoSeparator(p.base, ' ');
  }

  /** An nvidia-smi command: five arguments when the uuid holds no space,
      one more per space in the uuid. */
  lemma SmiArgv(uuid: Option<string>, key: Option<string>)
    requires ' ' !in OrEmpty(key)
    ensures Tokenise(AssembleCommand(SmiFragments, uuid, key)) ==
              ["nvidia-smi", "--query-gpu=" + OrEmpty(key), "--format=csv,noheader", "-i"] + Split(OrEmpty(uuid), ' ')
  {
    var k := "--query-gpu=" + OrEmpty(key);
    var f, o := "--format=csv,noheader", "-i";
    var us := Split(OrEmpty(uuid), ' ');
    assert SmiFragments.base != SettingsBase by { Layouts(); }
    assert ' ' !in SmiFragments.base && ' ' !in f && ' ' !in o && ' ' !in k by { SmiWords(); }
    QueryLayout(SmiFragments, f, o, uuid, key);
    assert Split(SmiFragments.start + OrEmpty(key), ' ') == [k] by { SplitNoSeparator(k, ' '); }
    SmiList("nvidia-smi", k, f, o, us);
  }

  /** The nvidia-smi argument list, regrouped. */
  lemma SmiList(a: string, k: string, f: string, o: string, us: seq<string>)
    ensures [a] + [k] + [f, o] + us == [a, k, f, o] + us
  {
  }

  /** An optirun command: six arguments when the uuid holds no space, one
      more per space in the uuid. */
  lemma OptimusArgv(uuid: Option<string>, key: Option<string>)
    requires ' ' !in OrEmpty(key)
    ensures Tokenise(AssembleCommand(OptimusFragments, uuid, key)) ==
              ["optirun", "nvidia-smi", "--query-gpu=" + OrEmpty(key), "--format=csv,noheader", "-i"]
              + Split(OrEmpty(uuid), ' ')
  {
    var k := "--query-gpu=" + OrEmpty(key);
    var f, o := "--format=csv,noheader", "-i";
    var us := Split(OrEmpty(uuid), ' ');
    assert OptimusFragments.base != SettingsBase by { Layouts(); }
    assert ' ' !in OptimusFragments.base && ' ' !in f && ' ' !in o && ' ' !in k && ' ' !in "nvidia-smi" by { SmiWords(); }
    QueryLayout(OptimusFragments, f, o, uuid, key);
    assert Split(OptimusFragments.start + OrEmpty(key), ' ') == ["nvidia-smi"] + [k] by {
      TwoWordStart("nvidia-smi", "--query-gpu=", OrEmpty(key));
      SplitNoSeparator(k, ' ');
    }
    OptimusList("optirun", "nvidia-smi", k, f, o, us);
  }

  /** The optirun argument list, regrouped. */
  lemma OptimusList(a: string, b: string, k: string, f: string, o: string, us: seq<string>)
    ensures [a] + ([b] + [k]) + [f, o] + us == [a, b, k, f, o] + us
  {
  }

  /** An nvidia-settings command: three arguments, the uuid and the key
      inside the second, when neither holds a space. */
  lemma SettingsArgv(uuid: Option<string>, key: Option<string>)
    requires ' ' !in OrEmpty(uuid) && ' ' !in OrEmpty(key)
    ensures Tokenise(AssembleCommand(SettingsFragments, uuid, key)) ==
              ["nvidia-settings", "-q=[gpu:" + OrEmpty(uuid) + "]/" + OrEmpty(key), "-t"]
  {
    var q := "-q=[gpu:" + OrEmpty(uuid) + "]/" + OrEmpty(key);
    assert ' ' !in "-t" && ' ' !in q by { SettingsWords(); }
    SettingsLayout(SettingsFragments, "-t", uuid, key);
    assert Split(q, ' ') == [q] by { SplitNoSeparator(q, ' '); }
  }

  /** Every catalog property, for any space-free uuid (or none), builds a
      command that passes the arity gate: 5 arguments for nvidia-smi, 6 for
      optirun, 3 for nvidia-settings. */
  lemma CatalogCommandsRun(id: int, i: nat, uuid: Option<string>)
    requires i < |CreateProvider(id).properties|
    requires ' ' !in OrEmpty(uuid)
    ensures var prop := CreateProvider(id).properties[i];
            var argv := Argv(prop.processor, uuid, Some(prop.key));
            && argv.Some?
            && |argv.value| == (if id == 1 then 3 else if id == 3 then 6 else 5)
  {
    var prop := CreateProvider(id).properties[i];
    KeysHaveNoSpace(id, i);
    SplitNoSeparator(OrEmpty(uuid), ' ');
    if id == 1 {
      SettingsArgv(uuid, Some(prop.key));
    } else if id == 3 {
      OptimusArgv(uuid, Some(prop.key));
    } else {
      SmiArgv(uuid, Some(prop.key));
    }
  }

  /** The spaces of a uuid decide whether an nvidia-smi query runs: with at
      most one space the command passes the gate and is classified; with two
      or more it has seven or more arguments, the process primitive is not
      called and the result is `Ok(None)`. */
  lemma UuidSpacesDecideSmiRun(u: string, key: string, exec: seq<string> -> ExecOutcome)
    requires ' ' !in key
    ensures var argv := Tokenise(AssembleCommand(SmiFragments, Some(u), Some(key)));
            && |argv| == 5 + Count(u, ' ')
            && (Count(u, ' ') <= 1 ==> Process(SmiFragments, Some(u), Some(key), exec) == Classify(exec(argv)))
            && (Count(u, ' ') >= 2 ==> Process(SmiFragments, Some(u), Some(key), exec) == Ok(None))
  {
    SmiArgv(Some(u), Some(key));
    SplitCount(u, ' ');
  }
}
