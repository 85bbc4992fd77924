/** Loading libvirt credentials for a cluster, and which clusters to reconcile when a Secret changes. */
module Credentials {
  import opened Base
  import opened IPv4

  datatype Name = Name(namespace: string, name: string)
  datatype Cluster = Cluster(key: Name, ref: Option<string>)

  datatype Tls = Tls(caCert: seq<byte>, clientCert: seq<byte>, clientKey: seq<byte>)
  datatype Ssh = Ssh(privateKey: seq<byte>, knownHosts: seq<byte>)
  datatype Creds = Creds(tls: Option<Tls>, ssh: Option<Ssh>)

  /** The answer to a read of a Secret: its data, not found, or another error. */
  datatype Fetch = Fetched(data: map<string, seq<byte>>) | Missing | Failed

  /** Credentials, none for a plain connection, or an error. */
  datatype Loaded = Ok(creds: Option<Creds>) | Error

  const TLS_KEYS: seq<string> := ["ca.crt", "tls.crt", "tls.key"]
  const SSH_KEYS: seq<string> := ["ssh-privatekey", "known_hosts"]

  function Value(data: map<string, seq<byte>>, key: string): seq<byte> {
    if key in data then data[key] else []
  }

  method HasAnyKey(data: map<string, seq<byte>>, keys: seq<string>) returns (any: bool)
    ensures any <==> exists i :: 0 <= i < |keys| && Value(data, keys[i]) != []
  {
    for i := 0 to |keys|
      invariant forall j :: 0 <= j < i ==> Value(data, keys[j]) == []
    {
      if Value(data, keys[i]) != [] {
        return true;
      }
    }
    return false;
  }

  method MissingKeys(data: map<string, seq<byte>>, keys: seq<string>) returns (missing: seq<string>)
    ensures forall k :: k in missing <==> k in keys && Value(data, k) == []
    ensures missing == [] <==> forall i :: 0 <= i < |keys| ==> Value(data, keys[i]) != []
  {
    missing := [];
    for i := 0 to |keys|
      invariant forall k :: k in missing <==> k in keys[..i] && Value(data, k) == []
      invariant missing == [] <==> forall j :: 0 <= j < i ==> Value(data, keys[j]) != []
    {
      if Value(data, keys[i]) == [] {
        missing := missing + [keys[i]];
      }
    }
  }

  predicate NoneSet(data: map<string, seq<byte>>, keys: seq<string>) {
    forall i :: 0 <= i < |keys| ==> Value(data, keys[i]) == []
  }

  predicate AllSet(data: map<string, seq<byte>>, keys: seq<string>) {
    forall i :: 0 <= i < |keys| ==> Value(data, keys[i]) != []
  }

  /** Each group of keys is all or nothing: a partial group is an error, two absent groups are no credentials. */
  function FromSecret(data: map<string, seq<byte>>): Loaded {
    if !(NoneSet(data, TLS_KEYS) || AllSet(data, TLS_KEYS)) || !(NoneSet(data, SSH_KEYS) || AllSet(data, SSH_KEYS)) then Error
    else
      var tls := if NoneSet(data, TLS_KEYS) then None
                 else Some(Tls(Value(data, "ca.crt"), Value(data, "tls.crt"), Value(data, "tls.key")));
      var ssh := if NoneSet(data, SSH_KEYS) then None
                 else Some(Ssh(Value(data, "ssh-privatekey"), Value(data, "known_hosts")));
      Ok(if tls.None? && ssh.None? then None else Some(Creds(tls, ssh)))
  }

  method CredentialsFromSecret(data: map<string, seq<byte>>) returns (r: Loaded)
    ensures r == FromSecret(data)
  {
    var creds := Creds(None, None);
    var tls := HasAnyKey(data, TLS_KEYS);
    if tls {
      var missing := MissingKeys(data, TLS_KEYS);
      if missing != [] {
        return Error;
      }
      creds := creds.(tls := Some(Tls(Value(data, "ca.crt"), Value(data, "tls.crt"), Value(data, "tls.key"))));
    }
    var ssh := HasAnyKey(data, SSH_KEYS);
    if ssh {
      var missing := MissingKeys(data, SSH_KEYS);
      if missing != [] {
        return Error;
      }
      creds := creds.(ssh := Some(Ssh(Value(data, "ssh-privatekey"), Value(data, "known_hosts"))));
    }
    return Ok(if creds.tls.None? && creds.ssh.None? then None else Some(creds));
  }

  /** The Secret has a non-empty value under this key. */
  predicate IsSet(data: map<string, seq<byte>>, key: string) {
    key in data && data[key] != []
  }

  /**
   What a Secret yields: an error exactly when a group of keys is set in part, no credentials exactly
   when no key is set, and otherwise each field from its own key.
   */
  lemma SecretReads(data: map<string, seq<byte>>)
    ensures var r := FromSecret(data);
            var ca, crt, key := IsSet(data, "ca.crt"), IsSet(data, "tls.crt"), IsSet(data, "tls.key");
            var priv, known := IsSet(data, "ssh-privatekey"), IsSet(data, "known_hosts");
            && (r.Error? <==> ((ca || crt || key) && !(ca && crt && key)) || ((priv || known) && !(priv && known)))
            && (r == Ok(None) <==> !ca && !crt && !key && !priv && !known)
            && (r.Ok? && r.creds.Some? ==>
                  var c := r.creds.value;
                  && (c.tls.Some? <==> ca) && (c.ssh.Some? <==> priv)
                  && (ca ==> c.tls.value.caCert == data["ca.crt"] && crt && c.tls.value.clientCert == data["tls.crt"]
                             && key && c.tls.value.clientKey == data["tls.key"])
                  && (priv ==> c.ssh.value.privateKey == data["ssh-privatekey"]
                               && known && c.ssh.value.knownHosts == data["known_hosts"]))
  {
    GroupsRead(data);
  }

  lemma GroupsRead(data: map<string, seq<byte>>)
    ensures NoneSet(data, TLS_KEYS) <==> !IsSet(data, "ca.crt") && !IsSet(data, "tls.crt") && !IsSet(data, "tls.key")
    ensures AllSet(data, TLS_KEYS) <==> IsSet(data, "ca.crt") && IsSet(data, "tls.crt") && IsSet(data, "tls.key")
    ensures NoneSet(data, SSH_KEYS) <==> !IsSet(data, "ssh-privatekey") && !IsSet(data, "known_hosts")
    ensures AllSet(data, SSH_KEYS) <==> IsSet(data, "ssh-privatekey") && IsSet(data, "known_hosts")
  {
    assert TLS_KEYS[0] == "ca.crt" && TLS_KEYS[1] == "tls.crt" && TLS_KEYS[2] == "tls.key";
    assert SSH_KEYS[0] == "ssh-privatekey" && SSH_KEYS[1] == "known_hosts";
  }

  /** The loader; an empty default name turns the controller-wide Secret off. */
  datatype Loader = Loader(default: Name) {
    function Load(get: Name -> Fetch, c: Cluster): Loaded {
      if c.ref.Some? then
        var r := get(Name(c.key.namespace, c.ref.value));
        if !r.Fetched? then Error
        else
          var creds := FromSecret(r.data);
          if creds.Ok? && creds.creds.None? then Error else creds
      else if default.name == "" then Ok(None)
      else
        match get(default)
        case Missing => Ok(None)
        case Failed => Error
        case Fetched(data) => FromSecret(data)
    }

    /** Does the list made for this Secret contain the cluster? */
    predicate Selects(secret: Name, c: Cluster) {
      secret == default || (c.key.namespace == secret.namespace && c.ref == Some(secret.name))
    }

    /** The keys of the selected clusters, in list order. */
    function Requests(secret: Name, clusters: seq<Cluster>): seq<Name> {
      if clusters == [] then []
      else
        var rest, last := Requests(secret, clusters[..|clusters| - 1]), clusters[|clusters| - 1];
        if Selects(secret, last) then rest + [last.key] else rest
    }

    /** The requests for a changed Secret; a failed list yields none. */
    method SecretToLibvirtClusters(secret: Name, clusters: seq<Cluster>, listed: bool) returns (requests: seq<Name>)
      ensures requests == if listed then Requests(secret, clusters) else []
    {
      requests := [];
      if !listed {
        return;
      }
      for i := 0 to |clusters|
        invariant requests == Requests(secret, clusters[..i])
      {
        assert clusters[..i + 1][..i] == clusters[..i];
        if Selects(secret, clusters[i]) {
          requests := requests + [clusters[i].key];
        }
      }
      assert clusters[..|clusters|] == clusters;
    }

    lemma {:induction false} RequestsAre(secret: Name, clusters: seq<Cluster>, key: Name)
      ensures key in Requests(secret, clusters)
              <==> exists i :: 0 <= i < |clusters| && clusters[i].key == key && Selects(secret, clusters[i])
      decreases |clusters|
    {
      if clusters != [] {
        var n := |clusters| - 1;
        RequestsAre(secret, clusters[..n], key);
        if exists i :: 0 <= i < |clusters| && clusters[i].key == key && Selects(secret, clusters[i]) {
          var i :| 0 <= i < |clusters| && clusters[i].key == key && Selects(secret, clusters[i]);
          if i < n { assert clusters[..n][i] == clusters[i]; }
        }
      }
    }

    /** The requests follow the list: those of a longer list are those of its parts, one after the other. */
    lemma {:induction false} RequestsInOrder(secret: Name, front: seq<Cluster>, back: seq<Cluster>)
      ensures Requests(secret, front + back) == Requests(secret, front) + Requests(secret, back)
      decreases |back|
    {
      if back == [] {
        assert front + back == front;
      } else {
        var n := |back| - 1;
        assert (front + back)[..|front + back| - 1] == front + back[..n];
        RequestsInOrder(secret, front, back[..n]);
      }
    }

    /** The Secret a cluster's credentials come from. */
    function Source(c: Cluster): Option<Name> {
      if c.ref.Some? then Some(Name(c.key.namespace, c.ref.value))
      else if default.name == "" then None
      else Some(default)
    }

    /** The two answers differ for this Secret only, and the cluster loads different credentials. */
    ghost predicate Alters(get: Name -> Fetch, get': Name -> Fetch, secret: Name, c: Cluster) {
      (forall n :: n != secret ==> get(n) == get'(n)) && Load(get, c) != Load(get', c)
    }

    /** Some change of a Secret alters what a cluster loads exactly when it is the Secret the cluster reads. */
    lemma AltersIff(secret: Name, c: Cluster)
      ensures (exists get, get' :: Alters(get, get', secret, c)) <==> Source(c) == Some(secret)
    {
      if Source(c) == Some(secret) {
        var data := map["ca.crt" := [1], "tls.crt" := [1], "tls.key" := [1]];
        var get := (n: Name) => Missing;
        var get' := (n: Name) => if n == secret then Fetched(data) else Missing;
        FullTls(data);
        assert Alters(get, get', secret, c);
      }
    }

    /**
     A referenced Secret must be there and yield credentials: a missing one and one without keys are
     errors. The default Secret may be missing or without keys: that is a plain connection. Without
     reference the namespace of the cluster plays no part.
     */
    lemma LoadReads(get: Name -> Fetch, c: Cluster)
      ensures var r := Load(get, c);
              && (c.ref.Some? ==>
                    var answer := get(Name(c.key.namespace, c.ref.value));
                    && r != Ok(None)
                    && (r.Error? <==> !answer.Fetched? || FromSecret(answer.data).Error? || FromSecret(answer.data) == Ok(None))
                    && (r.Ok? ==> r == FromSecret(answer.data)))
              && (c.ref.None? && default.name == "" ==> r == Ok(None))
              && (c.ref.None? && default.name != "" ==>
                    && (r.Error? <==> get(default).Failed? || (get(default).Fetched? && FromSecret(get(default).data).Error?))
                    && (get(default).Missing? ==> r == Ok(None))
                    && (get(default).Fetched? ==> r == FromSecret(get(default).data)))
    {
    }

    /** A Secret that is not the default one requests exactly the listed clusters that read it. */
    lemma OnlyReadersRequested(secret: Name, clusters: seq<Cluster>, key: Name)
      requires secret != default
      ensures key in Requests(secret, clusters)
              <==> exists i :: 0 <= i < |clusters| && clusters[i].key == key && Source(clusters[i]) == Some(secret)
    {
      RequestsAre(secret, clusters, key);
      forall i | 0 <= i < |clusters| ensures Selects(secret, clusters[i]) <==> Source(clusters[i]) == Some(secret) {
      }
    }

    /** The default Secret requests every listed cluster. */
    lemma DefaultRequestsAll(clusters: seq<Cluster>, key: Name)
      ensures key in Requests(default, clusters) <==> exists i :: 0 <= i < |clusters| && clusters[i].key == key
    {
      RequestsAre(default, clusters, key);
    }

    /** Whenever changing one Secret changes what some listed cluster loads, that cluster is among the requests. */
    lemma ChangeIsNoticed(get: Name -> Fetch, get': Name -> Fetch, secret: Name, clusters: seq<Cluster>, i: nat)
      requires i < |clusters| && Alters(get, get', secret, clusters[i])
      ensures clusters[i].key in Requests(secret, clusters)
    {
      AltersIff(secret, clusters[i]);
      RequestsAre(secret, clusters, clusters[i].key);
    }
  }

  lemma FullTls(data: map<string, seq<byte>>)
    requires AllSet(data, TLS_KEYS) && NoneSet(data, SSH_KEYS)
    ensures FromSecret(data).Ok? && FromSecret(data).creds.Some?
  {
    assert Value(data, TLS_KEYS[0]) != [];
  }
}
