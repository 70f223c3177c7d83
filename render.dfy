/** The service renderer `get_configured_service`: the one-entry mapping from a
    service name to its definition, built from a version and its resolved tag. */
module Render {
  import opened Text

  const ImagePrefix := "docker.elastic.co/elasticsearch/elasticsearch:"
  const ContainerPort := ":9200"
  const VolumeRoot := "/var/lib/elasticsearch-docker/"
  const VolumeTarget := "/data:/usr/share/elasticsearch/data"
  /** The `-1` that asks for an unlimited memory lock. */
  const Unlimited := -1

  datatype MemoryLock = MemoryLock(soft: int, hard: int)
  datatype Ulimits = Ulimits(memlock: MemoryLock)

  /** One entry of the compose document's `services` mapping. */
  datatype Service = Service(
    image: string,
    restart: string,
    ports: seq<string>,
    environment: seq<string>,
    ulimits: Ulimits,
    volumes: seq<string>)

  /** `'es' + version.replace('.', '')`. */
  function ServiceName(version: string): string {
    "es" + StripDots(version)
  }

  /** The host side of the port mapping, `'92' + version.replace('.', '')`. */
  function HostPort(version: string): string {
    "92" + StripDots(version)
  }

  function ConfiguredService(version: string, tag: string): (m: map<string, Service>)
    ensures m.Keys == {ServiceName(version)}
  {
    var name := ServiceName(version);
    map[name := Service(
      ImagePrefix + tag,
      "unless-stopped",
      [HostPort(version) + ContainerPort],
      [ "node.name=" + name,
        "discovery.type=single-node",
        "cluster.name=docker-cluster-" + name,
        "bootstrap.memory_lock=true",
        "ES_JAVA_OPTS=-Xms512m -Xmx512m"],
      Ulimits(MemoryLock(Unlimited, Unlimited)),
      [VolumeRoot + version + VolumeTarget])]
  }

  /** The tag an image reference pins, read back from behind the fixed prefix. */
  function ImageTag(s: Service): string {
    var n := |ImagePrefix|;
    if |s.image| >= n && s.image[..n] == ImagePrefix then s.image[n..] else ""
  }

  /** What a rendered mapping holds: one key, the version's digits behind "es"
      with no dot left; an image that pins exactly the given tag; one port mapping
      from "92" and the version's digits to container port 9200; five environment
      entries of which the node and cluster names embed the service name; an
      unlimited memory lock; one volume under the dotted version. */
  lemma RenderedService(version: string, tag: string)
    ensures var m := ConfiguredService(version, tag);
      var name := ServiceName(version);
      && |m| == 1 && name in m
      && name[..2] == "es" && '.' !in name
      && (forall c :: c in name[2..] <==> c in version && c != '.')
      && m[name].image == ImagePrefix + tag && ImageTag(m[name]) == tag
      && m[name].restart == "unless-stopped"
      && m[name].ports == [HostPort(version) + ":9200"]
      && |m[name].environment| == 5
      && m[name].environment[0] == "node.name=" + name
      && m[name].environment[1] == "discovery.type=single-node"
      && m[name].environment[2] == "cluster.name=docker-cluster-" + name
      && m[name].environment[3] == "bootstrap.memory_lock=true"
      && m[name].environment[4] == "ES_JAVA_OPTS=-Xms512m -Xmx512m"
      && m[name].ulimits.memlock.soft == -1 && m[name].ulimits.memlock.hard == -1
      && m[name].volumes == ["/var/lib/elasticsearch-docker/" + version + "/data:/usr/share/elasticsearch/data"]
  {
    var m := ConfiguredService(version, tag);
    var name := ServiceName(version);
    assert name[2..] == StripDots(version);
    StripDotsKeeps(version);
    assert m[name].image[..|ImagePrefix|] == ImagePrefix;
    assert m[name].image[|ImagePrefix|..] == tag;
  }

  /** Two versions share a service name exactly when they share a host port: the
      renderer never gives services of different names the same port. */
  lemma NameCollisionIsPortCollision(v: string, w: string)
    ensures ServiceName(v) == ServiceName(w) <==> HostPort(v) == HostPort(w)
  {
    if ServiceName(v) == ServiceName(w) {
      assert StripDots(v) == ServiceName(v)[2..];
      assert StripDots(w) == ServiceName(w)[2..];
    }
    if HostPort(v) == HostPort(w) {
      assert StripDots(v) == HostPort(v)[2..];
      assert StripDots(w) == HostPort(w)[2..];
    }
  }

  /** Removing the dot of `MAJOR.MINOR` joins the two fields. */
  lemma StripDotsOfMajorMinor(a: string, b: string)
    requires '.' !in a && '.' !in b
    ensures StripDots(a + "." + b) == a + b
  {
    var db := "." + b;
    assert a + "." + b == a + db;
    assert db[0] == '.' && db[1..] == b;
    assert StripDots(db) == StripDots(b);
    StripDotsAppend(a, db);
    StripDotsDotFree(a);
    StripDotsDotFree(b);
  }

  /** Service names tell apart `MAJOR.MINOR` versions whose majors have the same
      number of characters. */
  lemma NameInjectiveOnSameMajorWidth(a: string, b: string, c: string, d: string)
    requires '.' !in a && '.' !in b && '.' !in c && '.' !in d
    requires |a| == |c|
    ensures ServiceName(a + "." + b) == ServiceName(c + "." + d) <==> a == c && b == d
  {
    StripDotsOfMajorMinor(a, b);
    StripDotsOfMajorMinor(c, d);
    if ServiceName(a + "." + b) == ServiceName(c + "." + d) {
      var x, y := a + b, c + d;
      assert ("es" + x)[2..] == x && ("es" + y)[2..] == y;
      assert x == y;
      assert x[..|a|] == a && y[..|c|] == c;
      assert x[|a|..] == b && y[|c|..] == d;
    }
  }

  /** Without that condition two versions can collide: `1.23` and `12.3` both
      render to `es123` on host port `92123`, so the later one replaces the other. */
  lemma NamesCollideAcrossMajorWidths()
    ensures "1.23" != "12.3"
    ensures ServiceName("1.23") == ServiceName("12.3") == "es123"
    ensures HostPort("1.23") == HostPort("12.3") == "92123"
  {
    assert StripDots("1.23") == "123";
    assert StripDots("12.3") == "123";
  }
}
