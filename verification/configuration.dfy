/** The deployment settings the watcher reads. The program picks one of two
    configuration files depending on whether it runs under test; here the chosen
    record is a parameter of every operation, and `testing` says which one it is. */
module Configuration {

  datatype Config = Config(
    /** The host root, with every backslash already doubled (it is used as the
        source text of a regular expression). */
    windowsCurrentDirectoryRootPath: string,
    /** The volume root of a project, with a `{{project}}` placeholder. */
    linuxVolumesDirPathTemplate: string,
    /** Projects named by hand; when empty they are discovered from docker-compose. */
    windowsProjectsToWatch: seq<string>,
    /** The `volumes` list of each docker-compose service, in the order of the
        services; a service without volumes has an empty list. */
    serviceVolumes: seq<seq<string>>,
    /** Host-side patterns that the host-to-volume direction ignores. */
    ignoreWindowsWatcherPaths: seq<string>,
    /** Volume-side directories polled per project; the key `*` holds the default list. */
    linuxProjectsToWatch: map<string, seq<string>>,
    /** The process runs under the test runner. */
    testing: bool)

  const ComposeName := "spd-mothership9"

  /** The configuration used under test. */
  const TestingConfig := Config(
    "D:\\\\Roman\\\\webserver_v2\\\\" + ComposeName,
    "w:\\data\\docker\\volumes\\" + ComposeName + "_{{project}}\\_data",
    ["dbd-mothership"],
    [ ["./docker/ngrok/ngrok.yml:/etc/ngrok.yml"],
      [ "./docker/nginx-proxy/ssl:/etc/nginx/certs",
        "./docker/nginx-proxy/nginx-config.conf" + ":/etc/nginx/conf.d/nginx-config.conf",
        "/var/run/docker.sock:/tmp/docker.sock:ro" ],
      ["spd-mothership:/app"],
      ["dbd-mothership:/app"],
      ["dbz-mothership:/app"] ],
    [ "\\.git\\", "\\.idea\\", "\\storage\\logs\\", "\\storage\\framework\\",
      "\\vendor\\", "\\node_modules\\", "*\\start_with_star\\" ],
    map[
      "emptyProject" := [],
      "projectDoesntExistAsLinuxVolume" := ["storage\\logs", "bootstrap\\cache", "storage\\framework\\cache"],
      "dbd-mothership" := ["storage\\logs", "bootstrap\\cache", "storage\\framework\\cache"],
      "spd-mothership" := ["*", "public\\shipping.log", "public\\delivery.log", "public\\pickup.log",
                           "storage\\logs", "bootstrap\\cache"],
      "*" := ["storage\\logs", "bootstrap\\cache"]
    ],
    true)

  // The first characters of the test configuration's bind mounts, one literal at a time.

  lemma NgrokMountLiteral()
    ensures "./docker/ngrok/ngrok.yml:/etc/ngrok.yml"[0] == '.'
  {
    assert "./docker/ngrok/ngrok.yml:/etc/ngrok.yml" == "./docker/" + "ngrok/ngrok.yml:/etc/ngrok.yml";
  }

  lemma CertsMountLiteral()
    ensures "./docker/nginx-proxy/ssl:/etc/nginx/certs"[0] == '.'
  {
    assert "./docker/nginx-proxy/ssl:/etc/nginx/certs" == "./docker/" + "nginx-proxy/ssl:/etc/nginx/certs";
  }

  lemma NginxConfigMountLiteral()
    ensures ("./docker/nginx-proxy/nginx-config.conf" + ":/etc/nginx/conf.d/nginx-config.conf")[0] == '.'
  {
    assert "./docker/nginx-proxy/nginx-config.conf" == "./docker/" + "nginx-proxy/nginx-config.conf";
  }

  lemma SocketMountLiteral()
    ensures "/var/run/docker.sock:/tmp/docker.sock:ro"[0] == '/'
  {
    assert "/var/run/docker.sock:/tmp/docker.sock:ro" == "/var/run/" + "docker.sock:/tmp/docker.sock:ro";
  }
}
