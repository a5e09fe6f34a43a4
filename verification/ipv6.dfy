/**
 The address-selection tweak (`auto_ipv6_priority`): back up gai.conf
 when it exists, then append a fixed precedence directive to it,
 creating it if needed.
 */
module Ipv6 {
  import opened Host

  const GaiConf: Path := "/etc/gai.conf"
  const Directive: string := "\nprecedence ::ffff:0:0/96  100\n"

  /** gai.conf before the append: its lines, or nothing when absent. */
  function GaiLines(fs: FileSystem): seq<string> {
    if GaiConf in fs then fs[GaiConf] else []
  }

  /** `auto_ipv6_priority`. */
  function AutoIpv6Priority(w: World): (o: Outcome)
    ensures Follows(w, o)
    ensures o.status == Done && o.world.tty == w.tty && o.world.exits == w.exits
    ensures Commands(o.trace) == [] && |o.trace| >= 2
    // a backup is taken first exactly when the file exists ...
    ensures o.trace[0] == Backup(GaiConf) <==> GaiConf in w.fs
    ensures GaiConf in w.fs ==>
              BackupOf(GaiConf) in o.world.fs && o.world.fs[BackupOf(GaiConf)] == w.fs[GaiConf]
    ensures GaiConf !in w.fs ==> o.trace[0].Write?
    // ... and the directive is appended to what was there
    ensures o.world.fs == (if GaiConf in w.fs then w.fs[BackupOf(GaiConf) := w.fs[GaiConf]] else w.fs)
                            [GaiConf := GaiLines(w.fs) + [Directive]]
  {
    var write := Write(GaiConf, GaiLines(w.fs) + [Directive]);
    if GaiConf in w.fs then
      var trace := [Backup(GaiConf), write, Say(Ipv6Preferred)];
      assert trace == [Backup(GaiConf), write] + [Say(Ipv6Preferred)];
      ApplyAllAppend(w.fs, [Backup(GaiConf), write], [Say(Ipv6Preferred)]);
      ApplyAllPair(w.fs, Backup(GaiConf), write);
      ApplySilent(Apply(Apply(w.fs, Backup(GaiConf)), write), [Say(Ipv6Preferred)]);
      assert |BackupOf(GaiConf)| != |GaiConf|;
      assert Commands(trace) == Commands(trace[1..]) == Commands(trace[2..]) == [];
      Outcome(Done, w.(fs := ApplyAll(w.fs, trace)), trace)
    else
      var trace := [write, Say(Ipv6Preferred)];
      ApplyAllPair(w.fs, write, Say(Ipv6Preferred));
      assert Commands(trace) == Commands(trace[1..]) == [];
      Outcome(Done, w.(fs := ApplyAll(w.fs, trace)), trace)
  }

  /** There is no de-duplication: a second run appends the directive
      again, and its backup now holds the once-modified file, so the
      original contents survive in neither file. */
  lemma RunTwiceAppendsTwice(w: World)
    ensures var o1 := AutoIpv6Priority(w);
      var o2 := AutoIpv6Priority(o1.world);
      && o2.world.fs[GaiConf] == GaiLines(w.fs) + [Directive, Directive]
      && o2.world.fs[BackupOf(GaiConf)] == GaiLines(w.fs) + [Directive]
  {
    var o1 := AutoIpv6Priority(w);
    assert GaiConf in o1.world.fs;
    assert GaiLines(o1.world.fs) == GaiLines(w.fs) + [Directive];
  }
}
