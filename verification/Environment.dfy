/** What the clock, the commission and the economy are after any run: what the last block and the last
    settings said. */
module Environment {
  import opened Wrappers
  import opened Records
  import opened StateView
  import opened Ledger
  import opened Transitions
  import opened Effects
  import opened Invariants
  import KeyFamily

  /** The time of the last block of a run. */
  function LastTime(es: seq<Event>): Option<nat> {
    if es == [] then None
    else if Last(es).Block? then Some(Last(es).timestamp)
    else LastTime(Before(es))
  }

  /** The entries last written for a setting. */
  function LastEntries(es: seq<Event>, key: string): seq<(string, string)> {
    if es == [] then []
    else if Last(es).Setting? && Last(es).key == key then Last(es).entries
    else LastEntries(Before(es), key)
  }

  /** The first entry under the key counts. */
  lemma {:induction false} EntryIff(entries: seq<(string, string)>, key: string, value: string)
    ensures EntryFor(entries, key) == Some(value) <==>
      exists i :: 0 <= i < |entries| && entries[i] == (key, value) && forall j | 0 <= j < i :: entries[j].0 != key
    ensures EntryFor(entries, key) == None <==> forall i | 0 <= i < |entries| :: entries[i].0 != key
    decreases entries
  {
    if entries != [] {
      var rest := entries[1..];
      EntryIff(rest, key, value);
      assert forall i | 0 <= i < |rest| :: rest[i] == entries[i + 1];
      if entries[0].0 == key {
        assert entries[0].1 == value ==> entries[0] == (key, value);
      } else if EntryFor(rest, key) == Some(value) {
        var i :| 0 <= i < |rest| && rest[i] == (key, value) && forall j | 0 <= j < i :: rest[j].0 != key;
        assert entries[i + 1] == (key, value);
        forall j | 0 <= j < i + 1 ensures entries[j].0 != key {
          if j > 0 {
            assert rest[j - 1].0 != key;
          }
        }
      } else if i :| 0 <= i < |entries| && entries[i] == (key, value) && forall j | 0 <= j < i :: entries[j].0 != key {
        assert rest[i - 1] == (key, value);
        assert forall j | 0 <= j < i - 1 :: rest[j] == entries[j + 1];
      }
    }
  }

  /** No transaction touches settings, the block configuration or blocks. */
  lemma TransitionKeepsOutside(c: Crypto, s: State, signer: string, p: Payload, t: State, a: Address)
    requires WellFormed(s) && Transition(c, s, signer, p, t) && (p.SwapInit? ==> p.receiver.AccountAddr?)
    requires a.SettingAddr? || a.ConfigAddr? || a.BlockAddr?
    ensures Lookup(t, a) == Lookup(s, a)
  {
    hide TimeAt, FeeAt, EconomyOn, KeyFamily.ValidityAllowed, SettingAt;
  }

  lemma StepKeepsOutside(c: Crypto, s: State, e: Event, a: Address)
    requires WellFormed(s) && NamesAccount(e) && e.Submit?
    requires a.SettingAddr? || a.ConfigAddr? || a.BlockAddr?
    ensures Lookup(Step(c, s, e), a) == Lookup(s, a)
  {
    hide Process;
    if Process(c, s, e.tx).Ok? {
      ProcessIsTransition(c, s, e.tx);
      TransitionKeepsOutside(c, s, e.tx.signer, e.tx.payload, Process(c, s, e.tx).value, a);
    }
  }

  lemma StepTime(c: Crypto, s: State, e: Event)
    requires WellFormed(s) && NamesAccount(e)
    ensures TimeAt(Step(c, s, e)) == if e.Block? then Some(e.timestamp) else TimeAt(s)
  {
    if e.Submit? {
      StepKeepsOutside(c, s, e, ConfigAddr);
      if ConfigAddr in s && s[ConfigAddr].ConfigRec? {
        StepKeepsOutside(c, s, e, BlockAddr(s[ConfigAddr].latest));
      }
      hide Step;
    }
  }

  lemma StepSetting(c: Crypto, s: State, e: Event, key: string)
    requires WellFormed(s) && NamesAccount(e)
    ensures SettingAt(Step(c, s, e), key) ==
      if e.Setting? && e.key == key then EntryFor(e.entries, key) else SettingAt(s, key)
  {
    if e.Submit? {
      StepKeepsOutside(c, s, e, SettingAddr(key));
      hide Step;
    }
  }

  lemma {:induction false} OutsideIsLatest(c: Crypto, es: seq<Event>, key: string)
    requires AllNameAccounts(es)
    ensures TimeAt(Run(c, EMPTY, es)) == LastTime(es)
    ensures SettingAt(Run(c, EMPTY, es), key) == EntryFor(LastEntries(es, key), key)
  {
    hide Step, TimeAt, SettingAt;
    if es == [] {
      assert TimeAt(EMPTY) == None && SettingAt(EMPTY, key) == None by {
        NothingYet(key);
      }
    } else {
      OutsideIsLatest(c, Before(es), key);
      RunKeepsWellFormed(c, EMPTY, Before(es));
      StepTime(c, Run(c, EMPTY, Before(es)), Last(es));
      StepSetting(c, Run(c, EMPTY, Before(es)), Last(es), key);
    }
  }

  lemma NothingYet(key: string)
    ensures TimeAt(EMPTY) == None && SettingAt(EMPTY, key) == None
  {
  }

  /** After any run the time is that of the last block; the commission is the number in the first entry of
      its setting; and the economy is on unless the first entry of its setting is anything but "true" in
      some mixture of cases. */
  lemma EnvironmentIsLatest(c: Crypto, es: seq<Event>)
    requires AllNameAccounts(es)
    ensures TimeAt(Run(c, EMPTY, es)) == LastTime(es)
    ensures forall text | EntryFor(LastEntries(es, "remme.settings.swap_comission"), "remme.settings.swap_comission")
                            == Some(text) && c.parseInt(text).Some? ::
      FeeAt(c, Run(c, EMPTY, es)) == c.parseInt(text).value
    ensures EconomyOn(Run(c, EMPTY, es)) <==>
      match EntryFor(LastEntries(es, "remme.economy_enabled"), "remme.economy_enabled")
      case None => true
      case Some(text) =>
        && |text| == 4 && text[0] in {'t', 'T'} && text[1] in {'r', 'R'}
        && text[2] in {'u', 'U'} && text[3] in {'e', 'E'}
  {
    hide Run, SettingAt, EntryFor, TimeAt;
    OutsideIsLatest(c, es, "remme.settings.swap_comission");
    OutsideIsLatest(c, es, "remme.economy_enabled");
    var setting := EntryFor(LastEntries(es, "remme.economy_enabled"), "remme.economy_enabled");
    if setting.Some? {
      KeyFamily.EnabledSpellings(setting.value);
    }
  }
}
