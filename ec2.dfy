/** The slice of the EC2 API the engine uses, as plain values. Every call the
    engine makes is recorded as an `ApiCall`; every answer the provider gives
    is passed in by the caller of the modelled operation, so the provider
    acts as an oracle and the control flow around it is deterministic. */
module Ec2 {

  /** A resource tag, as EC2 returns it in a tag list. */
  datatype Tag = Tag(Key: string, Value: string)

  /** A describe filter such as `tag:<key>` = [value]. */
  datatype Filter = Filter(Name: string, Values: seq<string>)

  /** One image as DescribeImages returns it. */
  datatype Image = Image(
    ImageId: string,
    Architecture: string,
    CreationDate: string,
    Description: string,
    Name: string,
    State: string,
    Tags: seq<Tag>)

  /** One instance as RunInstances or DescribeInstances returns it.
      `LaunchTime` counts nanoseconds since an arbitrary epoch. */
  datatype Instance = Instance(
    InstanceId: string,
    LaunchTime: int,
    ImageId: string,
    State: string,
    Tags: seq<Tag>)

  datatype Reservation = Reservation(Instances: seq<Instance>)

  datatype EbsBlockDevice = EbsBlockDevice(DeleteOnTermination: bool, VolumeSize: int, VolumeType: string)

  datatype BlockDeviceMapping = BlockDeviceMapping(DeviceName: string, Ebs: EbsBlockDevice)

  datatype RunInstancesInput = RunInstancesInput(
    ImageId: string,
    InstanceType: string,
    UserData: string,
    MinCount: int,
    MaxCount: int,
    BlockDeviceMappings: seq<BlockDeviceMapping>)

  datatype CreateTagsInput = CreateTagsInput(Resources: seq<string>, Tags: seq<Tag>)

  datatype CreateImageInput = CreateImageInput(Description: string, Name: string, InstanceId: string)

  /** A request sent to the provider. */
  datatype ApiCall =
    | RunInstances(run: RunInstancesInput)
    | DescribeInstances(instanceIds: seq<string>, filters: seq<Filter>)
    | DescribeImages(imageIds: seq<string>, owners: seq<string>, filters: seq<Filter>)
    | CreateTags(tags: CreateTagsInput)
    | CreateImage(image: CreateImageInput)
    | DeregisterImage(imageId: string)
    | TerminateInstances(instanceIds: seq<string>)
}
